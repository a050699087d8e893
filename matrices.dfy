/**
 * Dense real matrices as sequences of rows, built entrywise, and the
 * determinant by cofactor expansion. This is the exact counterpart of the
 * general-purpose determinant the library's determinant cross-check uses.
 */
module Matrices {
  import opened Algebra
  import opened Combinatorics

  type Matrix = seq<seq<real>>

  ghost predicate IsSquare(a: Matrix)
  {
    forall i :: 0 <= i < |a| ==> |a[i]| == |a|
  }

  /** The rows x cols matrix whose entry (i, j) is f(i, j). */
  function Build(rows: nat, cols: nat, f: (int, int) -> real): (a: Matrix)
    ensures |a| == rows
    ensures forall i :: 0 <= i < rows ==> |a[i]| == cols
    ensures forall i, j :: 0 <= i < rows && 0 <= j < cols ==> a[i][j] == f(i, j)
  {
    seq(rows, i => seq(cols, j => f(i, j)))
  }

  /** The contents of a two-dimensional array, row by row. */
  function Contents(a: array2<real>): (m: Matrix)
    reads a
    ensures |m| == a.Length0
    ensures forall i :: 0 <= i < a.Length0 ==> |m[i]| == a.Length1
    ensures forall i, j :: 0 <= i < a.Length0 && 0 <= j < a.Length1 ==> m[i][j] == a[i, j]
  {
    seq(a.Length0, i requires 0 <= i < a.Length0 reads a =>
      seq(a.Length1, j requires 0 <= j < a.Length1 reads a => a[i, j]))
  }

  /** The n x n identity matrix. */
  function Identity(n: nat): (m: Matrix)
    ensures |m| == n && IsSquare(m)
    ensures forall i, j :: 0 <= i < n && 0 <= j < n ==> m[i][j] == Delta(i, j)
  {
    Build(n, n, (i, j) => Delta(i, j))
  }

  /** The product of a (rows x |b|) and b, with `cols` columns. */
  function MatMul(a: Matrix, b: Matrix, cols: nat): (m: Matrix)
    ensures |m| == |a|
    ensures forall i :: 0 <= i < |a| ==> |m[i]| == cols
    ensures forall i, j :: 0 <= i < |a| && 0 <= j < cols ==> m[i][j] == Sum(0, |b|, k => Scale(Get(a, i, k), Get(b, k, j)))
  {
    Build(|a|, cols, (i, j) => Sum(0, |b|, k => Scale(Get(a, i, k), Get(b, k, j))))
  }

  /** The matrix a applied to the vector v (numpy's `dot` of a 2-D and a 1-D array). */
  function MatVec(a: Matrix, v: seq<real>): (w: seq<real>)
    ensures |w| == |a|
    ensures forall i :: 0 <= i < |a| ==> w[i] == Sum(0, |v|, k => Scale(Get(a, i, k), At(v, k)))
  {
    seq(|a|, i => Sum(0, |v|, k => Scale(Get(a, i, k), At(v, k))))
  }

  ghost predicate UpperTriangular(a: Matrix)
    requires IsSquare(a)
  {
    forall i, j :: 0 <= j < i < |a| ==> a[i][j] == 0.0
  }

  /** The entry (i, j) of a, or 0 outside it. */
  function Get(a: Matrix, i: int, j: int): real
  {
    if 0 <= i < |a| && 0 <= j < |a[i]| then a[i][j] else 0.0
  }

  /** Index i of a minor in terms of the matrix it was cut from, skipping s. */
  function Skip(i: int, s: int): int
  {
    if i < s then i else i + 1
  }

  /** The matrix a with row r and column c removed. */
  function Minor(a: Matrix, r: nat, c: nat): (m: Matrix)
    requires IsSquare(a) && r < |a| && c < |a|
    ensures |m| == |a| - 1 && IsSquare(m)
    ensures forall i, j :: 0 <= i < |m| && 0 <= j < |m| ==> m[i][j] == a[Skip(i, r)][Skip(j, c)]
  {
    Build(|a| - 1, |a| - 1, (i, j) => Get(a, Skip(i, r), Skip(j, c)))
  }

  /** The determinant, by cofactor expansion along the last row. */
  function Det(a: Matrix): real
    requires IsSquare(a)
    decreases |a|, 1, 0
  {
    if |a| == 0 then 1.0 else Cofactors(a, |a|)
  }

  /** The first c terms of the cofactor expansion of a along its last row. */
  function Cofactors(a: Matrix, c: nat): real
    requires IsSquare(a) && 0 < |a| && c <= |a|
    decreases |a|, 0, c
  {
    if c == 0 then 0.0
    else
      var last := |a| - 1;
      Cofactors(a, c - 1) + Mop(last + c - 1) * a[last][c - 1] * Det(Minor(a, last, c - 1))
  }

  lemma {:induction false} CofactorsVanish(a: Matrix, c: nat)
    requires IsSquare(a) && UpperTriangular(a) && c < |a|
    ensures Cofactors(a, c) == 0.0
  {
    if c > 0 {
      CofactorsVanish(a, c - 1);
    }
  }

  /** The determinant of an upper-triangular matrix is the product of its diagonal. */
  lemma {:induction false} DetUpperTriangular(a: Matrix)
    requires IsSquare(a) && UpperTriangular(a)
    ensures Det(a) == Product(0, |a|, i => Get(a, i, i))
    decreases |a|
  {
    var n := |a|;
    if n > 0 {
      var m := Minor(a, n - 1, n - 1);
      LeadingMinor(a);
      DetUpperTriangular(m);
      ProductExt(0, n - 1, i => Get(m, i, i), i => Get(a, i, i));
      DetLastRow(a);
    }
  }

  /** Removing the last row and column keeps the leading block, triangular shape included. */
  lemma LeadingMinor(a: Matrix)
    requires IsSquare(a) && UpperTriangular(a) && |a| > 0
    ensures UpperTriangular(Minor(a, |a| - 1, |a| - 1))
    ensures forall i :: 0 <= i < |a| - 1 ==> Get(Minor(a, |a| - 1, |a| - 1), i, i) == Get(a, i, i)
  {
    var n := |a|;
    var m := Minor(a, n - 1, n - 1);
    forall i, j | 0 <= i < n - 1 && 0 <= j < n - 1
      ensures m[i][j] == a[i][j]
    {
      assert Skip(i, n - 1) == i && Skip(j, n - 1) == j;
    }
  }

  /** Of the last-row expansion of an upper-triangular matrix only the corner term remains. */
  lemma DetLastRow(a: Matrix)
    requires IsSquare(a) && UpperTriangular(a) && |a| > 0
    ensures Det(a) == Scale(Det(Minor(a, |a| - 1, |a| - 1)), a[|a| - 1][|a| - 1])
  {
    var n := |a|;
    CofactorsVanish(a, n - 1);
    assert Mop(2 * (n - 1)) == 1.0;
  }
}
