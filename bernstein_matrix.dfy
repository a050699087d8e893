/**
 * The n x n Bernstein matrix: entry (i, j) is
 * (-1)^(j - i) C(n - 1 - i, j - i) C(n - 1, i) on and above the diagonal
 * and 0 below it.
 */
module BMatrix {
  import opened Algebra
  import opened Combinatorics
  import opened Matrices

  /** The entry (i, j) of the Bernstein matrix of order n (0 outside the upper triangle). */
  function Entry(n: nat, i: int, j: int): real
  {
    if 0 <= i <= j < n then
      Mop(j - i) * RChoose(n - 1 - i, j - i) * RChoose(n - 1, i)
    else 0.0
  }

  /** The Bernstein matrix of order n. */
  function AsMatrix(n: nat): (m: Matrix)
    ensures |m| == n && IsSquare(m)
    ensures forall i, j :: 0 <= i < n && 0 <= j < n ==> m[i][j] == Entry(n, i, j)
  {
    Build(n, n, (i, j) => Entry(n, i, j))
  }

  /** The matrix is upper triangular. */
  lemma Triangular(n: nat)
    ensures UpperTriangular(AsMatrix(n))
  {
  }

  /** The diagonal holds the binomial coefficients C(n - 1, i). */
  lemma Diagonal(n: nat, i: nat)
    requires i < n
    ensures Entry(n, i, i) == RChoose(n - 1, i)
  {
    assert Choose(n - 1 - i, 0) == 1;
  }

  /** Row 0 is the alternating row (-1)^j C(n - 1, j) of Pascal's triangle. */
  lemma FirstRow(n: nat, j: nat)
    requires j < n
    ensures Entry(n, 0, j) == SignedChoose(n - 1, j)
  {
    assert Choose(n - 1, 0) == 1;
  }

  /** The last diagonal entry is 1. */
  lemma Corner(n: nat)
    requires n >= 1
    ensures Entry(n, n - 1, n - 1) == 1.0
  {
    Diagonal(n, n - 1);
    ChooseDiagonal(n - 1);
  }

  /** The matrix of order 5 shown as the worked example. */
  lemma OrderFive()
    ensures AsMatrix(5) == [[1.0, -4.0, 6.0, -4.0, 1.0],
                            [0.0, 4.0, -12.0, 12.0, -4.0],
                            [0.0, 0.0, 6.0, -12.0, 6.0],
                            [0.0, 0.0, 0.0, 4.0, -4.0],
                            [0.0, 0.0, 0.0, 0.0, 1.0]]
  {
    OrderFiveEntries();
    var m := AsMatrix(5);
    assert m[0] == [1.0, -4.0, 6.0, -4.0, 1.0];
    assert m[1] == [0.0, 4.0, -12.0, 12.0, -4.0];
    assert m[2] == [0.0, 0.0, 6.0, -12.0, 6.0];
    assert m[3] == [0.0, 0.0, 0.0, 4.0, -4.0];
    assert m[4] == [0.0, 0.0, 0.0, 0.0, 1.0];
  }

  /** The upper triangle of the order-5 example, entry by entry. */
  lemma OrderFiveEntries()
    ensures Entry(5, 0, 0) == 1.0 && Entry(5, 0, 1) == -4.0 && Entry(5, 0, 2) == 6.0
    ensures Entry(5, 0, 3) == -4.0 && Entry(5, 0, 4) == 1.0
    ensures Entry(5, 1, 1) == 4.0 && Entry(5, 1, 2) == -12.0 && Entry(5, 1, 3) == 12.0 && Entry(5, 1, 4) == -4.0
    ensures Entry(5, 2, 2) == 6.0 && Entry(5, 2, 3) == -12.0 && Entry(5, 2, 4) == 6.0
    ensures Entry(5, 3, 3) == 4.0 && Entry(5, 3, 4) == -4.0
    ensures Entry(5, 4, 4) == 1.0
  {
  }

  /**
   * bernstein_matrix: the Bernstein matrix of order n, filled column by
   * column on and above the diagonal of a zero array.
   */
  method BernsteinMatrix(n: nat) returns (a: array2<real>)
    ensures a.Length0 == n && a.Length1 == n
    ensures Contents(a) == AsMatrix(n)
  {
    a := new real[n, n]((_, _) => 0.0);
    var j := 0;
    while j < n
      invariant 0 <= j <= n
      invariant forall r, c :: 0 <= r < n && 0 <= c < j ==> a[r, c] == Entry(n, r, c)
      invariant forall r, c :: 0 <= r < n && j <= c < n ==> a[r, c] == 0.0
    {
      FillColumn(a, n, j);
      j := j + 1;
    }
    forall r | 0 <= r < n
      ensures Contents(a)[r] == AsMatrix(n)[r]
    {
    }
  }

  /** The inner loop: rows 0..j of column j receive their entries; nothing else changes. */
  method FillColumn(a: array2<real>, n: nat, j: nat)
    requires a.Length0 == n && a.Length1 == n && j < n
    requires forall r :: j < r < n ==> a[r, j] == 0.0
    modifies a
    ensures forall r :: 0 <= r < n ==> a[r, j] == Entry(n, r, j)
    ensures forall r, c :: 0 <= r < n && 0 <= c < n && c != j ==> a[r, c] == old(a[r, c])
  {
    var i := 0;
    while i <= j
      invariant 0 <= i <= j + 1
      invariant forall r :: 0 <= r < i ==> a[r, j] == Entry(n, r, j)
      invariant forall r :: j < r < n ==> a[r, j] == 0.0
      invariant forall r, c :: 0 <= r < n && 0 <= c < n && c != j ==> a[r, c] == old(a[r, c])
    {
      var v := Mop(j - i) * RChoose(n - 1 - i, j - i) * RChoose(n - 1, i);
      EntryAt(n, i, j, v);
      a[i, j] := v;
      i := i + 1;
    }
  }

  /** The value FillColumn writes at (i, j) is the entry there. */
  lemma EntryAt(n: nat, i: nat, j: nat, v: real)
    requires i <= j < n
    requires v == Mop(j - i) * RChoose(n - 1 - i, j - i) * RChoose(n - 1, i)
    ensures v == Entry(n, i, j)
  {
  }
}
