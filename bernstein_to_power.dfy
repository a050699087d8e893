/**
 * The change-of-basis matrices between the Bernstein basis
 * ((1 - x)^n, ..., x^n) of degree n and the power basis (1, x, ..., x^n).
 * Both are (n + 1) x (n + 1) and are filled at the reversed indices
 * (n - i, n - j) for 0 <= i <= j <= n, so they are the Bernstein matrix
 * of order n + 1 and its inverse with rows and columns reversed.
 */
module BToPower {
  import opened Algebra
  import opened Combinatorics
  import opened Matrices
  import BMatrix
  import BMatrixInverse

  /** Entry (r, c) of the Bernstein-to-power matrix, written at r = n - i, c = n - j. */
  function ToPowerEntry(n: nat, r: int, c: int): real
  {
    var i, j := n - r, n - c;
    if 0 <= i <= j <= n then Mop(j - i) * RChoose(n - i, j - i) * RChoose(n, i) else 0.0
  }

  /** Entry (r, c) of the power-to-Bernstein matrix, written at r = n - i, c = n - j. */
  function ToBernsteinEntry(n: nat, r: int, c: int): real
  {
    var i, j := n - r, n - c;
    if 0 <= i <= j <= n then RChoose(j, i) / RChoose(n, i) else 0.0
  }

  function ToPowerMatrix(n: nat): (m: Matrix)
    ensures |m| == n + 1 && IsSquare(m)
    ensures forall r, c :: 0 <= r <= n && 0 <= c <= n ==> m[r][c] == ToPowerEntry(n, r, c)
  {
    Build(n + 1, n + 1, (r, c) => ToPowerEntry(n, r, c))
  }

  function ToBernsteinMatrix(n: nat): (m: Matrix)
    ensures |m| == n + 1 && IsSquare(m)
    ensures forall r, c :: 0 <= r <= n && 0 <= c <= n ==> m[r][c] == ToBernsteinEntry(n, r, c)
  {
    Build(n + 1, n + 1, (r, c) => ToBernsteinEntry(n, r, c))
  }

  /** Both matrices are zero above the diagonal. */
  lemma LowerTriangular(n: nat, r: int, c: int)
    requires 0 <= r < c <= n
    ensures ToPowerEntry(n, r, c) == 0.0 && ToBernsteinEntry(n, r, c) == 0.0
  {
  }

  /** The Bernstein-to-power matrix is the Bernstein matrix of order n + 1, reversed. */
  lemma ToPowerReversed(n: nat, r: int, c: int)
    ensures ToPowerEntry(n, r, c) == BMatrix.Entry(n + 1, n - r, n - c)
  {
  }

  /** The power-to-Bernstein matrix is the inverse Bernstein matrix of order n + 1, reversed. */
  lemma ToBernsteinReversed(n: nat, r: int, c: int)
    ensures ToBernsteinEntry(n, r, c) == BMatrixInverse.Entry(n + 1, n - r, n - c)
  {
  }

  /** The value the code writes at (n - i, n - j) is the entry there. */
  lemma ToPowerAt(n: nat, i: nat, j: nat, value: real)
    requires i <= j <= n && value == Mop(j - i) * RChoose(n - i, j - i) * RChoose(n, i)
    ensures ToPowerEntry(n, n - i, n - j) == value
  {
  }

  /** The value the code writes at (n - i, n - j) is the entry there. */
  lemma ToBernsteinAt(n: nat, i: nat, j: nat, value: real)
    requires i <= j <= n && value == RChoose(j, i) / RChoose(n, i)
    ensures ToBernsteinEntry(n, n - i, n - j) == value
  {
  }

  /** The last row of the power-to-Bernstein matrix is all ones. */
  lemma LastRowOnes(n: nat, c: nat)
    requires c <= n
    ensures ToBernsteinEntry(n, n, c) == 1.0
  {
    assert Choose(n - c, 0) == 1 && Choose(n, 0) == 1;
  }

  /** The degree-4 Bernstein-to-power matrix shown as the worked example. */
  lemma ToPowerOrderFour()
    ensures ToPowerMatrix(4) == [[1.0, 0.0, 0.0, 0.0, 0.0],
                                 [-4.0, 4.0, 0.0, 0.0, 0.0],
                                 [6.0, -12.0, 6.0, 0.0, 0.0],
                                 [-4.0, 12.0, -12.0, 4.0, 0.0],
                                 [1.0, -4.0, 6.0, -4.0, 1.0]]
  {
    BMatrix.OrderFiveEntries();
    var m := ToPowerMatrix(4);
    assert m[0] == [1.0, 0.0, 0.0, 0.0, 0.0];
    assert m[1] == [-4.0, 4.0, 0.0, 0.0, 0.0];
    assert m[2] == [6.0, -12.0, 6.0, 0.0, 0.0];
    assert m[3] == [-4.0, 12.0, -12.0, 4.0, 0.0];
    assert m[4] == [1.0, -4.0, 6.0, -4.0, 1.0];
  }

  /**
   * The degree-4 power-to-Bernstein matrix. Its row 3 ends in 0, as the
   * code computes, where the documentation's picture shows 1.
   */
  lemma ToBernsteinOrderFour()
    ensures ToBernsteinMatrix(4) == [[1.0, 0.0, 0.0, 0.0, 0.0],
                                     [1.0, 0.25, 0.0, 0.0, 0.0],
                                     [1.0, 0.5, 1.0 / 6.0, 0.0, 0.0],
                                     [1.0, 0.75, 0.5, 0.25, 0.0],
                                     [1.0, 1.0, 1.0, 1.0, 1.0]]
  {
    BMatrixInverse.OrderFiveEntries();
    var m := ToBernsteinMatrix(4);
    assert m[0] == [1.0, 0.0, 0.0, 0.0, 0.0];
    assert m[1] == [1.0, 0.25, 0.0, 0.0, 0.0];
    assert m[2] == [1.0, 0.5, 1.0 / 6.0, 0.0, 0.0];
    assert m[3] == [1.0, 0.75, 0.5, 0.25, 0.0];
    assert m[4] == [1.0, 1.0, 1.0, 1.0, 1.0];
  }

  /** The worked example: p(x) = 3/4 B(4, 1) + 1/2 B(4, 2) has power coefficients (0, 3, -6, 3, 0). */
  lemma ToPowerExample()
    ensures MatVec(ToPowerMatrix(4), [0.0, 0.75, 0.5, 0.0, 0.0]) == [0.0, 3.0, -6.0, 3.0, 0.0]
  {
    ToPowerOrderFour();
  }

  /** The worked example backwards: p(x) = 3x - 6x^2 + 3x^3 has Bernstein coefficients (0, 3/4, 1/2, 0, 0). */
  lemma ToBernsteinExample()
    ensures MatVec(ToBernsteinMatrix(4), [0.0, 3.0, -6.0, 3.0, 0.0]) == [0.0, 0.75, 0.5, 0.0, 0.0]
  {
    ToBernsteinOrderFour();
  }

  /** Round trip: the Bernstein-to-power matrix times the power-to-Bernstein matrix is the identity. */
  lemma RoundTrip(n: nat)
    ensures MatMul(ToPowerMatrix(n), ToBernsteinMatrix(n), n + 1) == Identity(n + 1)
  {
    var p := MatMul(ToPowerMatrix(n), ToBernsteinMatrix(n), n + 1);
    forall r, c | 0 <= r <= n && 0 <= c <= n
      ensures p[r][c] == Delta(r, c)
    {
      ProductEntry(n, r, c);
    }
    assert forall r :: 0 <= r <= n ==> p[r] == Identity(n + 1)[r];
  }

  /** One entry of the round trip: the sum, read backwards, is an entry of the Bernstein matrix times its inverse. */
  lemma ProductEntry(n: nat, r: nat, c: nat)
    requires r <= n && c <= n
    ensures Sum(0, n + 1, k => Scale(Get(ToPowerMatrix(n), r, k), Get(ToBernsteinMatrix(n), k, c))) == Delta(r, c)
  {
    var backward := k => Scale(Get(ToPowerMatrix(n), r, k), Get(ToBernsteinMatrix(n), k, c));
    var forward := InverseTerms(n, r, c);
    TermsReversed(n, r, c, forward, backward);
    ReverseDelta(n, r, c, forward, backward);
  }

  lemma InverseTerms(n: nat, r: nat, c: nat) returns (forward: int -> real)
    requires r <= n && c <= n
    ensures forall k :: forward(k) == Scale(Get(BMatrix.AsMatrix(n + 1), n - r, k), Get(BMatrixInverse.AsMatrix(n + 1), k, n - c))
    ensures Sum(0, n + 1, forward) == Delta(n - r, n - c)
  {
    forward := k => Scale(Get(BMatrix.AsMatrix(n + 1), n - r, k), Get(BMatrixInverse.AsMatrix(n + 1), k, n - c));
    BMatrixInverse.ProductEntry(n + 1, n - r, n - c);
  }

  /** Reading a sum backwards: the entry (n - r, n - c) of a product becomes the entry (r, c). */
  lemma ReverseDelta(n: nat, r: nat, c: nat, forward: int -> real, backward: int -> real)
    requires r <= n && c <= n
    requires Sum(0, n + 1, forward) == Delta(n - r, n - c)
    requires forall k :: 0 <= k < n + 1 ==> backward(k) == forward(n + 1 - 1 - k)
    ensures Sum(0, n + 1, backward) == Delta(r, c)
  {
    SumReverse(n + 1, forward, backward);
  }

  /** The terms of the round trip are those of the Bernstein matrix times its inverse, in reverse order. */
  lemma TermsReversed(n: nat, r: nat, c: nat, forward: int -> real, backward: int -> real)
    requires r <= n && c <= n
    requires forall k :: forward(k) == Scale(Get(BMatrix.AsMatrix(n + 1), n - r, k), Get(BMatrixInverse.AsMatrix(n + 1), k, n - c))
    requires forall k :: backward(k) == Scale(Get(ToPowerMatrix(n), r, k), Get(ToBernsteinMatrix(n), k, c))
    ensures forall k :: 0 <= k < n + 1 ==> backward(k) == forward(n + 1 - 1 - k)
  {
    forall k | 0 <= k < n + 1
      ensures backward(k) == forward(n + 1 - 1 - k)
    {
      GetReversed(n, r, k, c);
    }
  }

  /** The two factors of one term of the round trip, read off the unreversed matrices. */
  lemma GetReversed(n: nat, r: nat, k: nat, c: nat)
    requires r <= n && k <= n && c <= n
    ensures Get(ToPowerMatrix(n), r, k) == Get(BMatrix.AsMatrix(n + 1), n - r, n - k)
    ensures Get(ToBernsteinMatrix(n), k, c) == Get(BMatrixInverse.AsMatrix(n + 1), n - k, n - c)
  {
    ToPowerReversed(n, r, k);
    ToBernsteinReversed(n, k, c);
  }

  /**
   * bernstein_to_power: the Bernstein-to-power matrix of degree n, filled
   * column n - j by column on a zero array.
   */
  method BernsteinToPower(n: nat) returns (a: array2<real>)
    ensures a.Length0 == n + 1 && a.Length1 == n + 1
    ensures Contents(a) == ToPowerMatrix(n)
  {
    a := new real[n + 1, n + 1]((_, _) => 0.0);
    var j := 0;
    while j <= n
      invariant 0 <= j <= n + 1
      invariant forall r, c :: 0 <= r <= n && n - j < c <= n ==> a[r, c] == ToPowerEntry(n, r, c)
      invariant forall r, c :: 0 <= r <= n && 0 <= c <= n - j ==> a[r, c] == 0.0
    {
      FillToPowerColumn(a, n, n - j);
      j := j + 1;
    }
    forall r | 0 <= r <= n
      ensures Contents(a)[r] == ToPowerMatrix(n)[r]
    {
    }
  }

  /** The inner loop of bernstein_to_power: column c = n - j receives its entries; nothing else changes. */
  method FillToPowerColumn(a: array2<real>, n: nat, c: nat)
    requires a.Length0 == n + 1 && a.Length1 == n + 1 && c <= n
    requires forall r :: 0 <= r < c ==> a[r, c] == 0.0
    modifies a
    ensures forall r :: 0 <= r <= n ==> a[r, c] == ToPowerEntry(n, r, c)
    ensures forall r, l :: 0 <= r <= n && 0 <= l <= n && l != c ==> a[r, l] == old(a[r, l])
  {
    var j := n - c;
    var i := 0;
    while i <= j
      invariant 0 <= i <= j + 1
      invariant forall r :: n - i < r <= n ==> a[r, c] == ToPowerEntry(n, r, c)
      invariant forall r :: 0 <= r < c ==> a[r, c] == 0.0
      invariant forall r, l :: 0 <= r <= n && 0 <= l <= n && l != c ==> a[r, l] == old(a[r, l])
    {
      var value := Mop(j - i) * RChoose(n - i, j - i) * RChoose(n, i);
      ToPowerAt(n, i, j, value);
      a[n - i, c] := value;
      i := i + 1;
    }
  }

  /**
   * power_to_bernstein: the power-to-Bernstein matrix of degree n, filled
   * column n - j by column on a zero array.
   */
  method PowerToBernstein(n: nat) returns (a: array2<real>)
    ensures a.Length0 == n + 1 && a.Length1 == n + 1
    ensures Contents(a) == ToBernsteinMatrix(n)
  {
    a := new real[n + 1, n + 1]((_, _) => 0.0);
    var j := 0;
    while j <= n
      invariant 0 <= j <= n + 1
      invariant forall r, c :: 0 <= r <= n && n - j < c <= n ==> a[r, c] == ToBernsteinEntry(n, r, c)
      invariant forall r, c :: 0 <= r <= n && 0 <= c <= n - j ==> a[r, c] == 0.0
    {
      FillToBernsteinColumn(a, n, n - j);
      j := j + 1;
    }
    forall r | 0 <= r <= n
      ensures Contents(a)[r] == ToBernsteinMatrix(n)[r]
    {
    }
  }

  /** The inner loop of power_to_bernstein: column c = n - j receives its entries; nothing else changes. */
  method FillToBernsteinColumn(a: array2<real>, n: nat, c: nat)
    requires a.Length0 == n + 1 && a.Length1 == n + 1 && c <= n
    requires forall r :: 0 <= r < c ==> a[r, c] == 0.0
    modifies a
    ensures forall r :: 0 <= r <= n ==> a[r, c] == ToBernsteinEntry(n, r, c)
    ensures forall r, l :: 0 <= r <= n && 0 <= l <= n && l != c ==> a[r, l] == old(a[r, l])
  {
    var j := n - c;
    var i := 0;
    while i <= j
      invariant 0 <= i <= j + 1
      invariant forall r :: n - i < r <= n ==> a[r, c] == ToBernsteinEntry(n, r, c)
      invariant forall r :: 0 <= r < c ==> a[r, c] == 0.0
      invariant forall r, l :: 0 <= r <= n && 0 <= l <= n && l != c ==> a[r, l] == old(a[r, l])
    {
      var value := RChoose(j, i) / RChoose(n, i);
      ToBernsteinAt(n, i, j, value);
      a[n - i, c] := value;
      i := i + 1;
    }
  }
}
