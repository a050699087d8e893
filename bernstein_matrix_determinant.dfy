/**
 * The determinant of the Bernstein matrix of order n, computed as the
 * product of the binomial coefficients C(n - 1, i), i = 0..n-1.
 */
module BMatrixDeterminant {
  import opened Algebra
  import opened Combinatorics
  import opened Matrices
  import BMatrix

  /** The product C(n - 1, 0) C(n - 1, 1) ... C(n - 1, n - 1). */
  function DiagonalProduct(n: nat): real
  {
    Product(0, n, i => RChoose(n - 1, i))
  }

  /**
   * bernstein_matrix_determinant: the accumulator starts at 1 and is
   * multiplied by C(n - 1, i) for i = 0..n-1.
   */
  method BernsteinMatrixDeterminant(n: nat) returns (value: real)
    ensures value == DiagonalProduct(n)
  {
    value := 1.0;
    for i := 0 to n
      invariant value == Product(0, i, k => RChoose(n - 1, k))
    {
      var c := RChoose(n - 1, i);
      value := value * c;
    }
  }

  /** The determinant is strictly positive. */
  lemma Positive(n: nat)
    ensures DiagonalProduct(n) > 0.0
  {
    ProductPositive(0, n, i => RChoose(n - 1, i));
  }

  /** The empty product for n = 0, and C(0, 0) = 1 for n = 1. */
  lemma SmallOrders()
    ensures DiagonalProduct(0) == 1.0
    ensures DiagonalProduct(1) == 1.0
  {
    assert Choose(0, 0) == 1;
  }

  /** The value is the determinant of the Bernstein matrix, which is triangular with diagonal C(n - 1, i). */
  lemma IsDeterminant(n: nat)
    ensures DiagonalProduct(n) == Det(BMatrix.AsMatrix(n))
  {
    var a := BMatrix.AsMatrix(n);
    BMatrix.Triangular(n);
    DetUpperTriangular(a);
    forall i | 0 <= i < n
      ensures Get(a, i, i) == RChoose(n - 1, i)
    {
      BMatrix.Diagonal(n, i);
    }
    ProductExt(0, n, i => Get(a, i, i), i => RChoose(n - 1, i));
  }
}
