/**
 * The Bernstein basis on [0, 1]. The basis values are defined here by the
 * two-term recurrence B(n, k) = x B(n - 1, k - 1) + (1 - x) B(n - 1, k) that
 * the evaluator runs in place (from the high index down, so that each slot
 * is read before it is overwritten in the same sweep), and the documented
 * closed form B(n, k)(x) = C(n, k) (1 - x)^(n - k) x^k is proved of it.
 */
module Poly01 {
  import opened Algebra
  import opened Combinatorics

  /**
   * The k-th Bernstein polynomial of degree n at x (0 for k outside 0..n).
   * On [0, 1] each value is a convex combination of two values of the row
   * below, so none exceeds 1.
   */
  function Bernstein(n: nat, k: int, x: real): (r: real)
    ensures 0.0 <= x <= 1.0 ==> r <= 1.0
    decreases n
  {
    if k < 0 || k > n then 0.0
    else if n == 0 then 1.0
    else
      var u, v := Bernstein(n - 1, k - 1, x), Bernstein(n - 1, k, x);
      BlendAtMostOne(x, u, v);
      Blend(x, u, v)
  }

  /** A convex combination of numbers at most 1 is at most 1. */
  lemma BlendAtMostOne(x: real, u: real, v: real)
    ensures 0.0 <= x <= 1.0 && u <= 1.0 && v <= 1.0 ==> Blend(x, u, v) <= 1.0
  {
    if 0.0 <= x <= 1.0 && u <= 1.0 && v <= 1.0 {
      assert x * u <= x;
      assert (1.0 - x) * v <= 1.0 - x;
    }
  }

  /**
   * The power product (1 - x)^(n - k) x^k, built one factor at a time
   * (MonomialPow relates it to Pow).
   */
  function Monomial(n: nat, k: nat, x: real): real
    requires k <= n
    decreases n
  {
    if n == 0 then 1.0
    else if k == 0 then Scale(1.0 - x, Monomial(n - 1, 0, x))
    else Scale(x, Monomial(n - 1, k - 1, x))
  }

  /** The documented closed form C(n, k) (1 - x)^(n - k) x^k. */
  function ClosedFormValue(n: nat, k: nat, x: real): real
    requires k <= n
  {
    Scale(RChoose(n, k), Monomial(n, k, x))
  }

  /** The vector of all n + 1 basis values at x. */
  function Basis(n: nat, x: real): (v: seq<real>)
    ensures |v| == n + 1
    ensures forall k :: 0 <= k <= n ==> v[k] == Bernstein(n, k, x)
  {
    seq(n + 1, k => Bernstein(n, k, x))
  }

  /** Peeling one factor 1 - x off the power product. */
  lemma {:induction false} MonomialLeft(n: nat, k: nat, x: real)
    requires k < n
    ensures Monomial(n, k, x) == Scale(1.0 - x, Monomial(n - 1, k, x))
    decreases k
  {
    if k > 0 {
      MonomialLeft(n - 1, k - 1, x);
      ScaleCommute(x, 1.0 - x, Monomial(n - 2, k - 1, x), Monomial(n - 1, k - 1, x), Monomial(n - 1, k, x));
    }
  }

  lemma ScaleCommute(x: real, y: real, m: real, u: real, v: real)
    requires u == Scale(y, m) && v == Scale(x, m)
    ensures Scale(x, u) == Scale(y, v)
  {
  }

  /** The power product agrees with the product of the two powers. */
  lemma {:induction false} MonomialPow(n: nat, k: nat, x: real)
    requires k <= n
    ensures Monomial(n, k, x) == Scale(Pow(1.0 - x, n - k), Pow(x, k))
    decreases n
  {
    if n > 0 {
      if k == 0 {
        MonomialPow(n - 1, 0, x);
        FactorLeft(1.0 - x, Pow(1.0 - x, n - 1), Pow(x, 0), Monomial(n - 1, 0, x), Pow(1.0 - x, n));
      } else {
        MonomialPow(n - 1, k - 1, x);
        FactorRight(x, Pow(1.0 - x, n - k), Pow(x, k - 1), Monomial(n - 1, k - 1, x), Pow(x, k));
      }
    }
  }

  lemma FactorLeft(y: real, p: real, q: real, m: real, yp: real)
    requires m == Scale(p, q) && yp == Scale(y, p)
    ensures Scale(y, m) == Scale(yp, q)
  {
  }

  lemma FactorRight(y: real, p: real, q: real, m: real, yq: real)
    requires m == Scale(p, q) && yq == Scale(y, q)
    ensures Scale(y, m) == Scale(p, yq)
  {
  }

  /** The recurrence reproduces the closed form, by induction on the degree. */
  lemma {:induction false} ClosedFormByRecurrence(n: nat, k: nat, x: real)
    requires k <= n
    ensures Bernstein(n, k, x) == ClosedFormValue(n, k, x)
    decreases n
  {
    if n == 0 {
    } else if k == 0 {
      ClosedFormByRecurrence(n - 1, 0, x);
      ClosedFormLow(n, x);
    } else if k == n {
      ClosedFormByRecurrence(n - 1, n - 1, x);
      ClosedFormHigh(n, x);
    } else {
      ClosedFormByRecurrence(n - 1, k - 1, x);
      ClosedFormByRecurrence(n - 1, k, x);
      ClosedFormPascal(n, k, x);
    }
  }

  /** At the low end of a row only the (1 - x) branch of the recurrence survives. */
  lemma ClosedFormLow(n: nat, x: real)
    requires n > 0
    ensures Blend(x, 0.0, ClosedFormValue(n - 1, 0, x)) == ClosedFormValue(n, 0, x)
  {
  }

  /** At the high end of a row only the x branch survives. */
  lemma ClosedFormHigh(n: nat, x: real)
    requires n > 0
    ensures Blend(x, ClosedFormValue(n - 1, n - 1, x), 0.0) == ClosedFormValue(n, n, x)
  {
    ChooseDiagonal(n);
    ChooseDiagonal(n - 1);
  }

  /** Strictly inside a row the closed form obeys the recurrence, by Pascal's rule. */
  lemma ClosedFormPascal(n: nat, k: nat, x: real)
    requires 0 < k < n
    ensures Blend(x, ClosedFormValue(n - 1, k - 1, x), ClosedFormValue(n - 1, k, x)) == ClosedFormValue(n, k, x)
  {
    MonomialLeft(n, k, x);
    Pascal(n, k);
    PascalArithmetic(RChoose(n, k), RChoose(n - 1, k - 1), RChoose(n - 1, k),
      x, Monomial(n, k, x), Monomial(n - 1, k - 1, x), Monomial(n - 1, k, x));
  }

  /** The ring identity behind one step of Pascal's rule. */
  lemma PascalArithmetic(c: real, c1: real, c2: real, x: real, m: real, m1: real, m2: real)
    requires c == c1 + c2 && m == Scale(x, m1) && m == Scale(1.0 - x, m2)
    ensures Blend(x, Scale(c1, m1), Scale(c2, m2)) == Scale(c, m)
  {
  }

  /** The closed form B(n, k)(x) = C(n, k) (1 - x)^(n - k) x^k. */
  lemma ClosedForm(n: nat, k: nat, x: real)
    requires k <= n
    ensures Bernstein(n, k, x) == Scale(RChoose(n, k), Scale(Pow(1.0 - x, n - k), Pow(x, k)))
  {
    ClosedFormByRecurrence(n, k, x);
    MonomialPow(n, k, x);
  }

  /** One step of the recurrence leaves the sum of a row of the triangle unchanged. */
  lemma RowSumStep(n: nat, x: real)
    requires n >= 1
    ensures Sum(0, n + 1, k => Bernstein(n, k, x)) == Sum(0, n, k => Bernstein(n - 1, k, x))
  {
    var f := k => Bernstein(n, k, x);
    var g := k => Bernstein(n - 1, k, x);
    var gs := k => Bernstein(n - 1, k - 1, x);
    BlendOfShift(n, x, f, g, gs);
  }

  /**
   * A row f that blends a row g (vanishing at n) with its shift gs
   * (gs(0) = 0, gs(k + 1) = g(k)) has the same sum as g.
   */
  lemma BlendOfShift(n: nat, x: real, f: int -> real, g: int -> real, gs: int -> real)
    requires forall k :: 0 <= k < n + 1 ==> f(k) == Blend(x, gs(k), g(k))
    requires gs(0) == 0.0 && g(n) == 0.0
    requires forall k :: 0 <= k < n ==> gs(k + 1) == g(k)
    ensures Sum(0, n + 1, f) == Sum(0, n, g)
  {
    ShiftedSum(n, g, gs);
    assert Sum(0, n + 1, g) == Sum(0, n, g) + g(n);
    SumBlend(0, n + 1, x, gs, g, f);
    BlendEqual(x, Sum(0, n + 1, gs), Sum(0, n + 1, g), Sum(0, n, g));
  }

  /** The shift gs of g (gs(0) = 0, gs(k + 1) = g(k)) has one more term and the same sum. */
  lemma ShiftedSum(n: nat, g: int -> real, gs: int -> real)
    requires gs(0) == 0.0
    requires forall k :: 0 <= k < n ==> gs(k + 1) == g(k)
    ensures Sum(0, n + 1, gs) == Sum(0, n, g)
  {
    SumSplit(0, 1, n + 1, gs);
    assert Sum(0, 1, gs) == 0.0;
    SumShift(0, n, 1, g, gs);
  }

  lemma BlendEqual(x: real, u: real, v: real, s: real)
    requires u == s && v == s
    ensures Blend(x, u, v) == s
  {
  }

  lemma BlendLow(x: real, v: real)
    ensures Blend(x, 0.0, v) == (1.0 - x) * v
  {
  }

  lemma BlendHigh(x: real, u: real)
    ensures Blend(x, u, 0.0) == x * u
  {
  }

  /** Partition of unity: the n + 1 basis values add up to 1 at every real x. */
  lemma {:induction false} PartitionOfUnity(n: nat, x: real)
    ensures Sum(0, n + 1, k => Bernstein(n, k, x)) == 1.0
  {
    if n > 0 {
      RowSumStep(n, x);
      PartitionOfUnity(n - 1, x);
    }
  }

  lemma PartitionOfUnitySeq(n: nat, x: real)
    ensures SeqSum(Basis(n, x)) == 1.0
  {
    var v := Basis(n, x);
    SumExt(0, n + 1, k => At(v, k), k => Bernstein(n, k, x));
    PartitionOfUnity(n, x);
  }

  /** On [0, 1] every basis value is non-negative. */
  lemma {:induction false} Nonnegative(n: nat, k: int, x: real)
    requires 0.0 <= x <= 1.0
    ensures Bernstein(n, k, x) >= 0.0
  {
    if 0 <= k <= n && n > 0 {
      Nonnegative(n - 1, k - 1, x);
      Nonnegative(n - 1, k, x);
      BlendNonnegative(x, Bernstein(n - 1, k - 1, x), Bernstein(n - 1, k, x));
    }
  }

  /** A convex combination of non-negative numbers is non-negative. */
  lemma BlendNonnegative(x: real, u: real, v: real)
    requires 0.0 <= x <= 1.0 && u >= 0.0 && v >= 0.0
    ensures Blend(x, u, v) >= 0.0
  {
    assert x * u >= 0.0;
    assert (1.0 - x) * v >= 0.0;
  }

  /** B(n, k) has a k-fold zero at 0: the basis at 0 is the unit vector e_0. */
  lemma {:induction false} AtZero(n: nat, k: int)
    ensures Bernstein(n, k, 0.0) == Delta(k, 0)
  {
    if 0 <= k <= n && n > 0 {
      AtZero(n - 1, k);
    }
  }

  /** B(n, k) has an (n - k)-fold zero at 1: the basis at 1 is the unit vector e_n. */
  lemma {:induction false} AtOne(n: nat, k: int)
    ensures Bernstein(n, k, 1.0) == Delta(k, n)
  {
    if 0 <= k <= n && n > 0 {
      AtOne(n - 1, k - 1);
    }
  }

  /** B(n, k)(1/2) = C(n, k) / 2^n, written as C(n, k) (1/2)^n. */
  lemma AtHalf(n: nat, k: int)
    requires 0 <= k <= n
    ensures Bernstein(n, k, 0.5) == RChoose(n, k) * Pow(0.5, n)
  {
    var j := n - k;
    ClosedFormByRecurrence(n, k, 0.5);
    MonomialPow(n, k, 0.5);
    assert 1.0 - 0.5 == 0.5;
    PowAdd(0.5, j, k);
    ScaleEqual(RChoose(n, k), Monomial(n, k, 0.5), Pow(0.5, n));
  }

  lemma ScaleEqual(c: real, m: real, p: real)
    requires m == p
    ensures Scale(c, m) == c * p
  {
  }

  /**
   * bernstein_poly_01: the n + 1 basis values at x, by the in-place
   * triangular recurrence on an array that starts as all zeros.
   */
  method BernsteinPoly01(n: nat, x: real) returns (b: array<real>)
    ensures b.Length == n + 1
    ensures b[..] == Basis(n, x)
    ensures n == 0 ==> b[..] == [1.0]
    ensures SeqSum(b[..]) == 1.0
    ensures 0.0 <= x <= 1.0 ==> forall k :: 0 <= k <= n ==> b[k] >= 0.0
  {
    b := new real[n + 1](_ => 0.0);
    if n == 0 {
      b[0] := 1.0;
    } else {
      b[0] := 1.0 - x;
      b[1] := x;
      BlendLow(x, Bernstein(0, 0, x));
      BlendHigh(x, Bernstein(0, 0, x));
      var i := 2;
      while i <= n
        invariant 2 <= i <= n + 1
        invariant forall k :: 0 <= k < i ==> b[k] == Bernstein(i - 1, k, x)
        invariant forall k :: i <= k <= n ==> b[k] == 0.0
      {
        RaiseDegree(b, i, x);
        i := i + 1;
      }
    }
    assert b[..] == Basis(n, x);
    PartitionOfUnitySeq(n, x);
    if 0.0 <= x <= 1.0 {
      forall k | 0 <= k <= n
        ensures b[k] >= 0.0
      {
        Nonnegative(n, k, x);
      }
    }
  }

  /**
   * One pass of the evaluator's outer loop: slots 0..i-1 hold the basis of
   * degree i - 1 and become the basis of degree i in slots 0..i, sweeping
   * from the top so that every slot is read before it is overwritten.
   */
  method RaiseDegree(b: array<real>, i: nat, x: real)
    requires 1 <= i < b.Length
    requires forall k :: 0 <= k < i ==> b[k] == Bernstein(i - 1, k, x)
    modifies b
    ensures forall k :: 0 <= k <= i ==> b[k] == Bernstein(i, k, x)
    ensures forall k :: i < k < b.Length ==> b[k] == old(b[k])
  {
    var u := b[i - 1];
    BlendHigh(x, u);
    b[i] := x * u;
    var j := i - 1;
    while j > 0
      invariant 0 <= j <= i - 1
      invariant forall k :: 0 <= k <= j ==> b[k] == Bernstein(i - 1, k, x)
      invariant forall k :: j < k <= i ==> b[k] == Bernstein(i, k, x)
      invariant forall k :: i < k < b.Length ==> b[k] == old(b[k])
    {
      b[j] := Blend(x, b[j - 1], b[j]);
      j := j - 1;
    }
    var v := b[0];
    BlendLow(x, v);
    b[0] := (1.0 - x) * v;
  }
}
