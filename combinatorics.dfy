/**
 * The two combinatorial collaborators every matrix builder consumes: the
 * binomial coefficient `choose(n, k)`, which is 0 whenever k < 0 or k > n,
 * and the signed parity `mop(k) = (-1)^k`. Neither has its source in this
 * model; both are defined here by their textbook recurrences, with the
 * identities the builders' proofs rest on.
 */
module Combinatorics {
  import opened Algebra

  /** The binomial coefficient C(n, k), zero outside 0 <= k <= n. */
  function Choose(n: int, k: int): (c: nat)
    ensures c > 0 <==> 0 <= k <= n
    decreases n
  {
    if n < 0 || k < 0 || k > n then 0
    else if k == 0 then 1
    else Choose(n - 1, k - 1) + Choose(n - 1, k)
  }

  /** C(n, k) as a real number, the value the library's floating-point binomial yields. */
  function RChoose(n: int, k: int): real
  {
    Choose(n, k) as real
  }

  /** (-1)^k for every integer k. */
  function Mop(k: int): real
  {
    if k % 2 == 0 then 1.0 else -1.0
  }

  function Fact(n: nat): (f: nat)
    ensures f > 0
  {
    if n == 0 then 1 else n * Fact(n - 1)
  }

  /** Pascal's rule, for every integer k (both sides vanish outside 0..n). */
  lemma Pascal(n: int, k: int)
    requires n >= 1
    ensures Choose(n, k) == Choose(n - 1, k - 1) + Choose(n - 1, k)
  {
  }

  lemma MopStep(k: int)
    ensures Mop(k + 1) == -Mop(k)
  {
  }

  lemma {:induction false} ChooseDiagonal(n: nat)
    ensures Choose(n, n) == 1
  {
    if n > 0 {
      ChooseDiagonal(n - 1);
    }
  }

  /** Symmetry of Pascal's triangle: C(n, k) = C(n, n - k), for every integer k. */
  lemma {:induction false} ChooseSymmetric(n: int, k: int)
    ensures Choose(n, k) == Choose(n, n - k)
    decreases n
  {
    if n >= 1 {
      ChooseSymmetric(n - 1, k - 1);
      ChooseSymmetric(n - 1, k);
      Pascal(n, k);
      Pascal(n, n - k);
    }
  }

  /** Complementary indices r + s = n pick equal binomials. */
  lemma ChooseComplement(n: int, r: int, s: int)
    requires r + s == n
    ensures Choose(n, r) == Choose(n, s)
  {
    ChooseSymmetric(n, r);
  }

  /** Indices of equal parity have equal signs. */
  lemma MopEven(a: int, b: int)
    requires (a - b) % 2 == 0
    ensures Mop(a) == Mop(b)
  {
  }

  /** Indices of opposite parity have opposite signs. */
  lemma MopOdd(a: int, b: int)
    requires (a - b) % 2 == 1
    ensures Mop(a) == -Mop(b)
  {
  }

  /** The sign of a reflected index k' = j - k: (-1)^(j + k') = (-1)^j (-1)^(j + k). */
  lemma MopReflect(j: int, k: int, k': int)
    requires k' == j - k
    ensures Mop(j + k') == Mop(j) * Mop(j + k)
  {
    if j % 2 == 0 {
      assert (j + k' - (j + k)) % 2 == 0;
      MopEven(j + k', j + k);
    } else {
      assert (j + k' - (j + k)) % 2 == 1;
      MopOdd(j + k', j + k);
    }
  }

  /** C(n, k) * k! * (n - k)! = n!. */
  lemma {:induction false} ChooseFactorial(n: nat, k: nat)
    requires k <= n
    ensures Choose(n, k) * Fact(k) * Fact(n - k) == Fact(n)
    decreases n
  {
    if k == 0 {
    } else if k == n {
      ChooseDiagonal(n);
    } else {
      ChooseFactorial(n - 1, k - 1);
      ChooseFactorial(n - 1, k);
      assert Fact(k) == k * Fact(k - 1);
      assert Fact(n - k) == (n - k) * Fact(n - 1 - k);
      PascalFactorialStep(Choose(n - 1, k - 1), Choose(n - 1, k), k, n - k,
        Fact(k - 1), Fact(n - 1 - k), Fact(n - 1));
    }
  }

  /** The arithmetic of the inductive step of ChooseFactorial. */
  lemma PascalFactorialStep(c1: int, c2: int, k: int, m: int, f: int, g: int, a: int)
    requires c1 * f * (m * g) == a
    requires c2 * (k * f) * g == a
    ensures (c1 + c2) * (k * f) * (m * g) == (k + m) * a
  {
    calc {
      (c1 + c2) * (k * f) * (m * g);
      k * (c1 * f * (m * g)) + m * (c2 * (k * f) * g);
    }
  }

  /** Regrouping a product of five factors around two known sub-products. */
  lemma Regroup(p: int, q: int, x: int, y: int, z: int, inner: int, outer: int)
    requires q * x * y == inner
    requires p * inner * z == outer
    ensures (p * q) * (x * y * z) == outer
  {
    calc {
      (p * q) * (x * y * z);
      p * (q * x * y) * z;
    }
  }

  /** The same, with the inner sub-product on the last two of x, y, z. */
  lemma RegroupRight(p: int, q: int, x: int, y: int, z: int, inner: int, outer: int)
    requires q * y * z == inner
    requires p * x * inner == outer
    ensures (p * q) * (x * y * z) == outer
  {
    calc {
      (p * q) * (x * y * z);
      p * x * (q * y * z);
    }
  }

  lemma CancelPositive(x: int, y: int, p: int)
    requires p > 0 && x * p == y * p
    ensures x == y
  {
    assert (x - y) * p == 0;
  }

  /**
   * Subset-of-a-subset identity: C(n, k) C(k, j) = C(n, j) C(n - j, k - j),
   * for every j, k (both sides vanish unless 0 <= j <= k <= n).
   */
  lemma ChooseRevision(n: int, k: int, j: int)
    ensures Choose(n, k) * Choose(k, j) == Choose(n, j) * Choose(n - j, k - j)
  {
    if 0 <= j <= k <= n {
      ChooseFactorial(n, k);
      ChooseFactorial(k, j);
      ChooseFactorial(n, j);
      ChooseFactorial(n - j, k - j);
      assert (n - j) - (k - j) == n - k;
      RevisionArithmetic(Choose(n, k), Choose(k, j), Choose(n, j), Choose(n - j, k - j),
        Fact(j), Fact(k - j), Fact(n - k), Fact(k), Fact(n - j), Fact(n));
    }
  }

  /** The arithmetic of ChooseRevision: the four factorial identities share the factor j! (k - j)! (n - k)!. */
  lemma RevisionArithmetic(a: int, b: int, c: int, d: int, fj: int, fkj: int, fnk: int, fk: int, fnj: int, fn: int)
    requires fj > 0 && fkj > 0 && fnk > 0
    requires a * fk * fnk == fn && b * fj * fkj == fk
    requires c * fj * fnj == fn && d * fkj * fnk == fnj
    ensures a * b == c * d
  {
    var p := fj * fkj * fnk;
    assert fj * fkj > 0;
    assert p > 0;
    Regroup(a, b, fj, fkj, fnk, fk, fn);
    RegroupRight(c, d, fj, fkj, fnk, fnj, fn);
    CancelPositive(a * b, c * d, p);
  }

  /** ChooseRevision over the reals. */
  lemma ChooseRevisionReal(n: int, k: int, j: int)
    ensures Scale(RChoose(n, k), RChoose(k, j)) == Scale(RChoose(n, j), RChoose(n - j, k - j))
  {
    ChooseRevision(n, k, j);
    CastEquation(Choose(n, k), Choose(k, j), Choose(n, j), Choose(n - j, k - j));
  }

  lemma CastEquation(x1: int, y1: int, x2: int, y2: int)
    requires x1 * y1 == x2 * y2
    ensures Scale(x1 as real, y1 as real) == Scale(x2 as real, y2 as real)
  {
    CastProduct(x1, y1);
    CastProduct(x2, y2);
  }

  lemma CastProduct(x: int, y: int)
    ensures (x * y) as real == (x as real) * (y as real)
  {
  }

  /** The signed binomial coefficient (-1)^t C(d, t). */
  function SignedChoose(d: int, t: int): real
  {
    Mop(t) * RChoose(d, t)
  }

  /** Partial alternating sums of a row of Pascal's triangle. */
  lemma {:induction false} AlternatingPartialSum(d: int, m: nat)
    requires d >= 1
    ensures Sum(0, m + 1, t => SignedChoose(d, t)) == SignedChoose(d - 1, m)
  {
    if m == 0 {
      assert Choose(d, 0) == 1 && Choose(d - 1, 0) == 1;
    } else {
      AlternatingPartialSum(d, m - 1);
      AlternatingStep(d, m);
    }
  }

  /** One step of AlternatingPartialSum: Pascal's rule against the sign flip. */
  lemma AlternatingStep(d: int, m: nat)
    requires d >= 1 && m > 0
    ensures SignedChoose(d - 1, m - 1) + SignedChoose(d, m) == SignedChoose(d - 1, m)
  {
    Pascal(d, m);
    MopStep(m - 1);
    AlternatingArithmetic(SignedChoose(d - 1, m - 1), SignedChoose(d, m), Mop(m - 1), Mop(m),
      RChoose(d - 1, m - 1), RChoose(d - 1, m), RChoose(d, m));
  }

  lemma AlternatingArithmetic(s: real, fm: real, p: real, q: real, c1: real, c2: real, c: real)
    requires s == p * c1 && q == -p && c == c1 + c2 && fm == q * c
    ensures s + fm == q * c2
  {
  }

  /** The alternating sum of row d of Pascal's triangle: 1 for d = 0, else 0. */
  lemma AlternatingSum(d: nat)
    ensures Sum(0, d + 1, t => SignedChoose(d, t)) == Delta(d, 0)
  {
    if d >= 1 {
      AlternatingPartialSum(d, d);
    }
  }
}
