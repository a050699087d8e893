/**
 * The analytic inverse of the Bernstein matrix: entry (i, j) is
 * C(j, i) / C(n - 1, i) on and above the diagonal and 0 below it. The
 * product of the Bernstein matrix with it is shown to be the identity, by
 * the subset-of-a-subset identity and the alternating sums of Pascal's
 * triangle.
 */
module BMatrixInverse {
  import opened Algebra
  import opened Combinatorics
  import opened Matrices
  import BMatrix

  /** The entry (i, j) of the inverse Bernstein matrix of order n (0 outside the upper triangle). */
  function Entry(n: nat, i: int, j: int): real
  {
    if 0 <= i <= j < n then RChoose(j, i) / RChoose(n - 1, i) else 0.0
  }

  /** The inverse Bernstein matrix of order n. */
  function AsMatrix(n: nat): (m: Matrix)
    ensures |m| == n && IsSquare(m)
    ensures forall i, j :: 0 <= i < n && 0 <= j < n ==> m[i][j] == Entry(n, i, j)
  {
    Build(n, n, (i, j) => Entry(n, i, j))
  }

  /** Every divisor C(n - 1, i) met on and above the diagonal is positive. */
  lemma DivisorPositive(n: nat, i: nat)
    requires i < n
    ensures Choose(n - 1, i) > 0
  {
  }

  lemma Triangular(n: nat)
    ensures UpperTriangular(AsMatrix(n))
  {
  }

  /** The diagonal holds the reciprocals 1 / C(n - 1, i). */
  lemma Diagonal(n: nat, i: nat)
    requires i < n
    ensures Entry(n, i, i) == 1.0 / RChoose(n - 1, i)
  {
    ChooseDiagonal(i);
  }

  /** Row 0 and column n - 1 consist of ones. */
  lemma Ones(n: nat, k: nat)
    requires k < n
    ensures Entry(n, 0, k) == 1.0
    ensures Entry(n, k, n - 1) == 1.0
  {
    assert Choose(k, 0) == 1 && Choose(n - 1, 0) == 1;
    var c := RChoose(n - 1, k);
    assert c / c == 1.0;
  }

  /** The matrix of order 5 shown as the worked example. */
  lemma OrderFive()
    ensures AsMatrix(5) == [[1.0, 1.0, 1.0, 1.0, 1.0],
                            [0.0, 0.25, 0.5, 0.75, 1.0],
                            [0.0, 0.0, 1.0 / 6.0, 0.5, 1.0],
                            [0.0, 0.0, 0.0, 0.25, 1.0],
                            [0.0, 0.0, 0.0, 0.0, 1.0]]
  {
    OrderFiveEntries();
    var m := AsMatrix(5);
    assert m[0] == [1.0, 1.0, 1.0, 1.0, 1.0];
    assert m[1] == [0.0, 0.25, 0.5, 0.75, 1.0];
    assert m[2] == [0.0, 0.0, 1.0 / 6.0, 0.5, 1.0];
    assert m[3] == [0.0, 0.0, 0.0, 0.25, 1.0];
    assert m[4] == [0.0, 0.0, 0.0, 0.0, 1.0];
  }

  /** The upper triangle of the order-5 example, entry by entry. */
  lemma OrderFiveEntries()
    ensures Entry(5, 0, 0) == 1.0 && Entry(5, 0, 1) == 1.0 && Entry(5, 0, 2) == 1.0
    ensures Entry(5, 0, 3) == 1.0 && Entry(5, 0, 4) == 1.0
    ensures Entry(5, 1, 1) == 0.25 && Entry(5, 1, 2) == 0.5 && Entry(5, 1, 3) == 0.75 && Entry(5, 1, 4) == 1.0
    ensures Entry(5, 2, 2) == 1.0 / 6.0 && Entry(5, 2, 3) == 0.5 && Entry(5, 2, 4) == 1.0
    ensures Entry(5, 3, 3) == 0.25 && Entry(5, 3, 4) == 1.0
    ensures Entry(5, 4, 4) == 1.0
  {
  }

  /** The Bernstein matrix times its analytic inverse is the identity. */
  lemma InverseRelation(n: nat)
    ensures MatMul(BMatrix.AsMatrix(n), AsMatrix(n), n) == Identity(n)
  {
    var p := MatMul(BMatrix.AsMatrix(n), AsMatrix(n), n);
    forall i, j | 0 <= i < n && 0 <= j < n
      ensures p[i][j] == Delta(i, j)
    {
      ProductEntry(n, i, j);
    }
    assert forall i :: 0 <= i < n ==> p[i] == Identity(n)[i];
  }

  /** Row i of the Bernstein matrix against column j of the inverse. */
  lemma ProductEntry(n: nat, i: nat, j: nat)
    requires i < n && j < n
    ensures Sum(0, n, k => Scale(Get(BMatrix.AsMatrix(n), i, k), Get(AsMatrix(n), k, j))) == Delta(i, j)
  {
    var term := k => Scale(Get(BMatrix.AsMatrix(n), i, k), Get(AsMatrix(n), k, j));
    TermsOutside(n, i, j);
    if j < i {
      SumZero(0, n, term);
    } else {
      var s := AlternatingRow(i, j);
      TermsInside(n, i, j, s);
      CollapseSum(n, i, j, RChoose(j, i), term, s);
      ChooseDiagonal(i);
    }
  }

  /** The terms of row i against column j vanish unless i <= k <= j. */
  lemma TermsOutside(n: nat, i: nat, j: nat)
    requires i < n && j < n
    ensures forall k :: 0 <= k < n && (k < i || j < k) ==>
      Scale(Get(BMatrix.AsMatrix(n), i, k), Get(AsMatrix(n), k, j)) == 0.0
  {
  }

  /** For i <= k <= j the term is C(j, i) times the alternating coefficient s(k). */
  lemma TermsInside(n: nat, i: nat, j: nat, s: int -> real)
    requires i <= j < n
    requires forall k :: i <= k <= j ==> s(k) == SignedChoose(j - i, k - i)
    ensures forall k :: i <= k <= j ==>
      Scale(Get(BMatrix.AsMatrix(n), i, k), Get(AsMatrix(n), k, j)) == Scale(RChoose(j, i), s(k))
  {
    forall k | i <= k <= j
      ensures Scale(Get(BMatrix.AsMatrix(n), i, k), Get(AsMatrix(n), k, j)) == Scale(RChoose(j, i), s(k))
    {
      TermAt(n, i, k, j);
    }
  }

  /**
   * A sum that vanishes outside i..j and is c s(k) inside it collapses to
   * c Delta(i, j) when s sums to Delta(i, j) over i..j.
   */
  lemma CollapseSum(n: nat, i: nat, j: nat, c: real, term: int -> real, s: int -> real)
    requires i <= j < n
    requires forall k :: 0 <= k < i ==> term(k) == 0.0
    requires forall k :: i <= k <= j ==> term(k) == Scale(c, s(k))
    requires forall k :: j < k < n ==> term(k) == 0.0
    requires Sum(i, j + 1, s) == Delta(i, j)
    ensures Sum(0, n, term) == c * Delta(i, j)
  {
    SumSupport(0, n, i, j + 1, term);
    SumScale(i, j + 1, c, s, term);
  }

  /** The alternating row j - i of Pascal's triangle, shifted to start at i; it sums to Delta(i, j). */
  lemma AlternatingRow(i: nat, j: nat) returns (s: int -> real)
    requires i <= j
    ensures forall k :: i <= k <= j ==> s(k) == SignedChoose(j - i, k - i)
    ensures Sum(i, j + 1, s) == Delta(i, j)
  {
    var d := j - i;
    s := k => SignedChoose(d, k - i);
    SumShift(0, d + 1, i, t => SignedChoose(d, t), s);
    AlternatingSum(d);
  }

  /** One term of the product, read off the two matrices. */
  lemma TermAt(n: nat, i: nat, k: nat, j: nat)
    requires i <= k <= j < n
    ensures Scale(Get(BMatrix.AsMatrix(n), i, k), Get(AsMatrix(n), k, j)) == Scale(RChoose(j, i), SignedChoose(j - i, k - i))
  {
    TermValue(n, i, k, j);
    ReplaceFactors(Get(BMatrix.AsMatrix(n), i, k), Get(AsMatrix(n), k, j), BMatrix.Entry(n, i, k), Entry(n, k, j),
      RChoose(j, i), SignedChoose(j - i, k - i));
  }

  /**
   * One term of the product over the entry formulas: the two binomial
   * identities collapse it to C(j, i) (-1)^(k - i) C(j - i, k - i).
   */
  lemma TermValue(n: nat, i: nat, k: nat, j: nat)
    requires i <= k <= j < n
    ensures Scale(BMatrix.Entry(n, i, k), Entry(n, k, j)) == Scale(RChoose(j, i), SignedChoose(j - i, k - i))
  {
    var m, a, b := Mop(k - i), RChoose(n - 1 - i, k - i), RChoose(n - 1, i);
    var c, d := RChoose(j, k), RChoose(n - 1, k);
    TermFormula(n, i, k, j);
    EntryFormulas(n, i, k, j);
    ReplaceFactors(BMatrix.Entry(n, i, k), Entry(n, k, j), m * a * b, c / d, RChoose(j, i), SignedChoose(j - i, k - i));
  }

  /** The two entries met in one term, in closed form. */
  lemma EntryFormulas(n: nat, i: nat, k: nat, j: nat)
    requires i <= k <= j < n
    ensures BMatrix.Entry(n, i, k) == Mop(k - i) * RChoose(n - 1 - i, k - i) * RChoose(n - 1, i)
    ensures Entry(n, k, j) == RChoose(j, k) / RChoose(n - 1, k)
  {
  }

  /** The term in closed form, by C(n-1, i) C(n-1-i, k-i) = C(n-1, k) C(k, i) and C(j, k) C(k, i) = C(j, i) C(j-i, k-i). */
  lemma TermFormula(n: nat, i: nat, k: nat, j: nat)
    requires i <= k <= j < n
    ensures Scale(Mop(k - i) * RChoose(n - 1 - i, k - i) * RChoose(n - 1, i), RChoose(j, k) / RChoose(n - 1, k))
         == Scale(RChoose(j, i), SignedChoose(j - i, k - i))
  {
    ChooseRevisionReal(n - 1, k, i);
    ChooseRevisionReal(j, k, i);
    TermArithmetic(Mop(k - i), RChoose(n - 1 - i, k - i), RChoose(n - 1, i),
      RChoose(j, k), RChoose(n - 1, k), RChoose(k, i),
      RChoose(j, i), RChoose(j - i, k - i));
  }

  lemma TermArithmetic(m: real, a: real, b: real, c: real, d: real, e: real, f: real, g: real)
    requires d != 0.0 && Scale(d, e) == Scale(b, a) && Scale(c, e) == Scale(f, g)
    ensures Scale(m * a * b, c / d) == Scale(f, m * g)
  {
    assert d * (c / d) == c;
    calc {
      m * a * b * (c / d);
      m * (d * e) * (c / d);
      m * e * (d * (c / d));
      m * (c * e);
    }
  }

  lemma ReplaceFactors(x: real, y: real, p: real, q: real, f: real, s: real)
    requires x == p && y == q && Scale(p, q) == Scale(f, s)
    ensures Scale(x, y) == Scale(f, s)
  {
  }

  /**
   * bernstein_matrix_inverse: the inverse Bernstein matrix of order n,
   * filled column by column on and above the diagonal of a zero array.
   */
  method BernsteinMatrixInverse(n: nat) returns (a: array2<real>)
    ensures a.Length0 == n && a.Length1 == n
    ensures Contents(a) == AsMatrix(n)
  {
    a := new real[n, n]((_, _) => 0.0);
    var j := 0;
    while j < n
      invariant 0 <= j <= n
      invariant forall r, c :: 0 <= r < n && 0 <= c < j ==> a[r, c] == Entry(n, r, c)
      invariant forall r, c :: 0 <= r < n && j <= c < n ==> a[r, c] == 0.0
    {
      FillColumn(a, n, j);
      j := j + 1;
    }
    forall r | 0 <= r < n
      ensures Contents(a)[r] == AsMatrix(n)[r]
    {
    }
  }

  /** The inner loop: rows 0..j of column j receive their entries; nothing else changes. */
  method FillColumn(a: array2<real>, n: nat, j: nat)
    requires a.Length0 == n && a.Length1 == n && j < n
    requires forall r :: j < r < n ==> a[r, j] == 0.0
    modifies a
    ensures forall r :: 0 <= r < n ==> a[r, j] == Entry(n, r, j)
    ensures forall r, c :: 0 <= r < n && 0 <= c < n && c != j ==> a[r, c] == old(a[r, c])
  {
    var i := 0;
    while i <= j
      invariant 0 <= i <= j + 1
      invariant forall r :: 0 <= r < i ==> a[r, j] == Entry(n, r, j)
      invariant forall r :: j < r < n ==> a[r, j] == 0.0
      invariant forall r, c :: 0 <= r < n && 0 <= c < n && c != j ==> a[r, c] == old(a[r, c])
    {
      a[i, j] := RChoose(j, i) / RChoose(n - 1, i);
      i := i + 1;
    }
  }
}
