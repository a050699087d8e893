/**
 * The change-of-basis matrices between the Bernstein basis of degree n on
 * [0, 1] and the Legendre polynomials shifted to [0, 1]. Both are
 * (n + 1) x (n + 1); every entry is a finite alternating sum of binomial
 * quotients, accumulated in place and then scaled.
 */
module BLegendre {
  import opened Algebra
  import opened Combinatorics
  import opened Matrices

  // ---------------------------------------------------------------------
  // Bernstein to Legendre

  /**
   * Term k of entry (i, j): (-1)^(i + k) C(i, k)^2 / C(n + i, j + k). The
   * divisor is positive on the range the sum runs over, 0 <= k <= i with
   * 0 <= j <= n; outside it the term is 0.
   */
  function ToLegendreTerm(n: nat, i: int, j: int, k: int): real
  {
    if 0 <= j <= n && 0 <= k <= i then
      Mop(i + k) * Square(RChoose(i, k)) / RChoose(n + i, j + k)
    else 0.0
  }

  /** The final step for entry (i, j): the accumulated sum s times C(n, j) (2i + 1) / (n + i + 1). */
  function ToLegendreScaled(s: real, n: nat, i: nat, j: nat): real
  {
    s * RChoose(n, j) * (2 * i + 1) as real / (n + i + 1) as real
  }

  /** Entry (i, j): the sum over k = 0..i, scaled. */
  function ToLegendreEntry(n: nat, i: int, j: int): real
  {
    if 0 <= i <= n && 0 <= j <= n then
      ToLegendreScaled(Sum(0, i + 1, k => ToLegendreTerm(n, i, j, k)), n, i, j)
    else 0.0
  }

  function ToLegendreMatrix(n: nat): (m: Matrix)
    ensures |m| == n + 1 && IsSquare(m)
    ensures forall i, j :: 0 <= i <= n && 0 <= j <= n ==> m[i][j] == ToLegendreEntry(n, i, j)
  {
    Build(n + 1, n + 1, (i, j) => ToLegendreEntry(n, i, j))
  }

  /** Every divisor met in an entry is non-zero: 0 <= j + k <= n + i, and n + i + 1 >= 1. */
  lemma Denominators(n: nat, i: nat, j: nat, k: nat)
    requires i <= n && j <= n && k <= i
    ensures RChoose(n + i, j + k) > 0.0
    ensures (n + i + 1) as real > 0.0
  {
  }

  /** Row 0 is constant 1 / (n + 1). */
  lemma ToLegendreFirstRow(n: nat, j: nat)
    requires j <= n
    ensures ToLegendreEntry(n, 0, j) == 1.0 / (n + 1) as real
  {
    assert Choose(0, 0) == 1;
    var c := RChoose(n, j);
    assert ToLegendreTerm(n, 0, j, 0) == 1.0 / c;
    CancelQuotient(c, (n + 1) as real);
  }

  lemma CancelQuotient(c: real, d: real)
    requires c != 0.0 && d != 0.0
    ensures (0.0 + 1.0 / c) * c * 1.0 / d == 1.0 / d
  {
  }

  /**
   * bernstein_to_legendre: the Bernstein-to-Legendre matrix of degree n,
   * filled row by row on a zero array.
   */
  method BernsteinToLegendre(n: nat) returns (a: array2<real>)
    ensures a.Length0 == n + 1 && a.Length1 == n + 1
    ensures Contents(a) == ToLegendreMatrix(n)
  {
    a := new real[n + 1, n + 1]((_, _) => 0.0);
    var i := 0;
    while i <= n
      invariant 0 <= i <= n + 1
      invariant forall r, l :: 0 <= r < i && 0 <= l <= n ==> a[r, l] == ToLegendreEntry(n, r, l)
      invariant forall r, l :: i <= r <= n && 0 <= l <= n ==> a[r, l] == 0.0
    {
      ToLegendreRow(a, n, i);
      i := i + 1;
    }
    forall r | 0 <= r <= n
      ensures Contents(a)[r] == ToLegendreMatrix(n)[r]
    {
    }
  }

  /** The loop over j for one row i. */
  method ToLegendreRow(a: array2<real>, n: nat, i: nat)
    requires a.Length0 == n + 1 && a.Length1 == n + 1 && i <= n
    requires forall l :: 0 <= l <= n ==> a[i, l] == 0.0
    modifies a
    ensures forall l :: 0 <= l <= n ==> a[i, l] == ToLegendreEntry(n, i, l)
    ensures forall r, l :: 0 <= r <= n && 0 <= l <= n && r != i ==> a[r, l] == old(a[r, l])
  {
    var j := 0;
    while j <= n
      invariant 0 <= j <= n + 1
      invariant forall l :: 0 <= l < j ==> a[i, l] == ToLegendreEntry(n, i, l)
      invariant forall l :: j <= l <= n ==> a[i, l] == 0.0
      invariant forall r, l :: 0 <= r <= n && 0 <= l <= n && r != i ==> a[r, l] == old(a[r, l])
    {
      ToLegendreCell(a, n, i, j);
      j := j + 1;
    }
  }

  /** One entry: accumulate the terms into a[i, j], then scale it. */
  method ToLegendreCell(a: array2<real>, n: nat, i: nat, j: nat)
    requires a.Length0 == n + 1 && a.Length1 == n + 1 && i <= n && j <= n
    requires a[i, j] == 0.0
    modifies a
    ensures a[i, j] == ToLegendreEntry(n, i, j)
    ensures forall r, l :: 0 <= r <= n && 0 <= l <= n && (r != i || l != j) ==> a[r, l] == old(a[r, l])
  {
    ToLegendreSum(a, n, i, j);
    var s := a[i, j];
    var v := s * RChoose(n, j) * (2 * i + 1) as real / (n + i + 1) as real;
    ToLegendreScaledIs(n, i, j, s, v);
    a[i, j] := v;
  }

  /** The loop over k: a[i, j] accumulates terms 0..i. */
  method ToLegendreSum(a: array2<real>, n: nat, i: nat, j: nat)
    requires a.Length0 == n + 1 && a.Length1 == n + 1 && i <= n && j <= n
    requires a[i, j] == 0.0
    modifies a
    ensures a[i, j] == Sum(0, i + 1, l => ToLegendreTerm(n, i, j, l))
    ensures forall r, l :: 0 <= r <= n && 0 <= l <= n && (r != i || l != j) ==> a[r, l] == old(a[r, l])
  {
    var k := 0;
    while k <= i
      invariant 0 <= k <= i + 1
      invariant a[i, j] == Sum(0, k, l => ToLegendreTerm(n, i, j, l))
      invariant forall r, l :: 0 <= r <= n && 0 <= l <= n && (r != i || l != j) ==> a[r, l] == old(a[r, l])
    {
      ToLegendreAdd(a, n, i, j, k);
      k := k + 1;
    }
  }

  /** One pass of the loop over k: term k is added to a[i, j]. */
  method ToLegendreAdd(a: array2<real>, n: nat, i: nat, j: nat, k: nat)
    requires a.Length0 == n + 1 && a.Length1 == n + 1 && i <= n && j <= n && k <= i
    modifies a
    ensures a[i, j] == old(a[i, j]) + ToLegendreTerm(n, i, j, k)
    ensures forall r, l :: 0 <= r <= n && 0 <= l <= n && (r != i || l != j) ==> a[r, l] == old(a[r, l])
  {
    var acc := a[i, j];
    var c := RChoose(i, k);
    var t := Mop(i + k) * Square(c) / RChoose(n + i, j + k);
    ToLegendreTermIs(n, i, j, k, t);
    a[i, j] := acc + t;
  }

  /** The value the inner loop adds at step k is term k. */
  lemma ToLegendreTermIs(n: nat, i: nat, j: nat, k: nat, t: real)
    requires j <= n && k <= i
    requires t == Mop(i + k) * Square(RChoose(i, k)) / RChoose(n + i, j + k)
    ensures t == ToLegendreTerm(n, i, j, k)
  {
  }

  /** The value the final step computes is the scaled sum. */
  lemma ToLegendreScaledIs(n: nat, i: nat, j: nat, s: real, v: real)
    requires i <= n && j <= n
    requires v == s * RChoose(n, j) * (2 * i + 1) as real / (n + i + 1) as real
    ensures v == ToLegendreScaled(s, n, i, j)
  {
  }

  // ---------------------------------------------------------------------
  // Legendre to Bernstein

  /** The first index of the sum for entry (i, j): max(0, i + j - n). */
  function First(n: nat, i: int, j: int): int
  {
    if i + j - n > 0 then i + j - n else 0
  }

  /** One past the last index of the sum for entry (i, j): min(i, j) + 1. */
  function Last(i: int, j: int): int
  {
    if i < j then i + 1 else j + 1
  }

  /** Term k of entry (i, j): (-1)^(j + k) C(j, k)^2 C(n - j, i - k). */
  function ToBernsteinTerm(n: nat, i: int, j: int, k: int): real
  {
    Mop(j + k) * Square(RChoose(j, k)) * RChoose(n - j, i - k)
  }

  /** The shape of a Legendre-to-Bernstein term: a sign s times c squared times d. */
  function SignedProduct(s: real, c: real, d: real): real
  {
    s * Square(c) * d
  }

  /** The final step for entry (i, j): the accumulated sum s divided by C(n, i). */
  function ToBernsteinScaled(s: real, n: nat, i: nat): real
    requires i <= n
  {
    s / RChoose(n, i)
  }

  /** Entry (i, j): the sum over k = max(0, i + j - n)..min(i, j), divided by C(n, i). */
  function ToBernsteinEntry(n: nat, i: int, j: int): real
  {
    if 0 <= i <= n && 0 <= j <= n then
      ToBernsteinScaled(Sum(First(n, i, j), Last(i, j), k => ToBernsteinTerm(n, i, j, k)), n, i)
    else 0.0
  }

  function ToBernsteinMatrix(n: nat): (m: Matrix)
    ensures |m| == n + 1 && IsSquare(m)
    ensures forall i, j :: 0 <= i <= n && 0 <= j <= n ==> m[i][j] == ToBernsteinEntry(n, i, j)
  {
    Build(n + 1, n + 1, (i, j) => ToBernsteinEntry(n, i, j))
  }

  /** Column 0 is all ones. */
  lemma ToBernsteinFirstColumn(n: nat, i: nat)
    requires i <= n
    ensures ToBernsteinEntry(n, i, 0) == 1.0
  {
    var f := k => ToBernsteinTerm(n, i, 0, k);
    var c := RChoose(n, i);
    assert Choose(0, 0) == 1;
    assert First(n, i, 0) == 0 && Last(i, 0) == 1;
    assert f(0) == c;
    assert Sum(0, 1, f) == Sum(0, 0, f) + f(0);
    SelfQuotient(Sum(0, 1, f), c);
  }

  lemma SelfQuotient(s: real, c: real)
    requires c > 0.0 && s == c
    ensures s / c == 1.0
  {
  }

  /**
   * legendre_to_bernstein: the Legendre-to-Bernstein matrix of degree n,
   * filled row by row on a zero array.
   */
  method LegendreToBernstein(n: nat) returns (a: array2<real>)
    ensures a.Length0 == n + 1 && a.Length1 == n + 1
    ensures Contents(a) == ToBernsteinMatrix(n)
  {
    a := new real[n + 1, n + 1]((_, _) => 0.0);
    var i := 0;
    while i <= n
      invariant 0 <= i <= n + 1
      invariant forall r, l :: 0 <= r < i && 0 <= l <= n ==> a[r, l] == ToBernsteinEntry(n, r, l)
      invariant forall r, l :: i <= r <= n && 0 <= l <= n ==> a[r, l] == 0.0
    {
      ToBernsteinRow(a, n, i);
      i := i + 1;
    }
    forall r | 0 <= r <= n
      ensures Contents(a)[r] == ToBernsteinMatrix(n)[r]
    {
    }
  }

  /** The loop over j for one row i. */
  method ToBernsteinRow(a: array2<real>, n: nat, i: nat)
    requires a.Length0 == n + 1 && a.Length1 == n + 1 && i <= n
    requires forall l :: 0 <= l <= n ==> a[i, l] == 0.0
    modifies a
    ensures forall l :: 0 <= l <= n ==> a[i, l] == ToBernsteinEntry(n, i, l)
    ensures forall r, l :: 0 <= r <= n && 0 <= l <= n && r != i ==> a[r, l] == old(a[r, l])
  {
    var j := 0;
    while j <= n
      invariant 0 <= j <= n + 1
      invariant forall l :: 0 <= l < j ==> a[i, l] == ToBernsteinEntry(n, i, l)
      invariant forall l :: j <= l <= n ==> a[i, l] == 0.0
      invariant forall r, l :: 0 <= r <= n && 0 <= l <= n && r != i ==> a[r, l] == old(a[r, l])
    {
      ToBernsteinCell(a, n, i, j);
      j := j + 1;
    }
  }

  /** One entry: accumulate the terms into a[i, j], then divide it. */
  method ToBernsteinCell(a: array2<real>, n: nat, i: nat, j: nat)
    requires a.Length0 == n + 1 && a.Length1 == n + 1 && i <= n && j <= n
    requires a[i, j] == 0.0
    modifies a
    ensures a[i, j] == ToBernsteinEntry(n, i, j)
    ensures forall r, l :: 0 <= r <= n && 0 <= l <= n && (r != i || l != j) ==> a[r, l] == old(a[r, l])
  {
    ToBernsteinSum(a, n, i, j);
    var s := a[i, j];
    var v := s / RChoose(n, i);
    ToBernsteinScaledIs(n, i, s, v);
    a[i, j] := v;
  }

  /** The loop over k: a[i, j] accumulates terms max(0, i + j - n)..min(i, j). */
  method ToBernsteinSum(a: array2<real>, n: nat, i: nat, j: nat)
    requires a.Length0 == n + 1 && a.Length1 == n + 1 && i <= n && j <= n
    requires a[i, j] == 0.0
    modifies a
    ensures a[i, j] == Sum(First(n, i, j), Last(i, j), l => ToBernsteinTerm(n, i, j, l))
    ensures forall r, l :: 0 <= r <= n && 0 <= l <= n && (r != i || l != j) ==> a[r, l] == old(a[r, l])
  {
    var lo, hi := First(n, i, j), Last(i, j);
    var k := lo;
    while k < hi
      invariant lo <= k <= hi
      invariant a[i, j] == Sum(lo, k, l => ToBernsteinTerm(n, i, j, l))
      invariant forall r, l :: 0 <= r <= n && 0 <= l <= n && (r != i || l != j) ==> a[r, l] == old(a[r, l])
    {
      ToBernsteinAdd(a, n, i, j, k);
      k := k + 1;
    }
  }

  /** One pass of the loop over k: term k is added to a[i, j]. */
  method ToBernsteinAdd(a: array2<real>, n: nat, i: nat, j: nat, k: int)
    requires a.Length0 == n + 1 && a.Length1 == n + 1 && i <= n && j <= n
    modifies a
    ensures a[i, j] == old(a[i, j]) + ToBernsteinTerm(n, i, j, k)
    ensures forall r, l :: 0 <= r <= n && 0 <= l <= n && (r != i || l != j) ==> a[r, l] == old(a[r, l])
  {
    var acc := a[i, j];
    var c := RChoose(j, k);
    var t := Mop(j + k) * Square(c) * RChoose(n - j, i - k);
    ToBernsteinTermIs(n, i, j, k, t);
    a[i, j] := acc + t;
  }

  /** The value the inner loop adds at step k is term k. */
  lemma ToBernsteinTermIs(n: nat, i: nat, j: nat, k: int, t: real)
    requires t == Mop(j + k) * Square(RChoose(j, k)) * RChoose(n - j, i - k)
    ensures t == ToBernsteinTerm(n, i, j, k)
  {
  }

  /** The value the final step computes is the divided sum. */
  lemma ToBernsteinScaledIs(n: nat, i: nat, s: real, v: real)
    requires i <= n
    requires v == s / RChoose(n, i)
    ensures v == ToBernsteinScaled(s, n, i)
  {
  }

  // ---------------------------------------------------------------------
  // Reflection x -> 1 - x

  /**
   * The Bernstein-to-Legendre matrix under reflection: column n - j is
   * column j times (-1)^i, for every degree. Reflection maps B(n, j) to
   * B(n, n - j) and the shifted Legendre polynomial of degree i to (-1)^i
   * times itself.
   */
  lemma ToLegendreReflect(n: nat, i: int, j: int)
    ensures ToLegendreEntry(n, i, n - j) == Mop(i) * ToLegendreEntry(n, i, j)
  {
    if 0 <= i <= n && 0 <= j <= n {
      var j' := n - j;
      ToLegendreColumnReflect(n, i, j, j', k => ToLegendreTerm(n, i, j, k), k => ToLegendreTerm(n, i, j', k));
    } else {
      assert ToLegendreEntry(n, i, n - j) == 0.0;
    }
  }

  /** Entry (i, j') with j' = n - j is (-1)^i times entry (i, j). */
  lemma ToLegendreColumnReflect(n: nat, i: nat, j: nat, j': nat, f: int -> real, g: int -> real)
    requires i <= n && j <= n && j' == n - j
    requires forall k :: f(k) == ToLegendreTerm(n, i, j, k) && g(k) == ToLegendreTerm(n, i, j', k)
    ensures ToLegendreEntry(n, i, j') == Mop(i) * ToLegendreEntry(n, i, j)
  {
    var m, p := i + 1, Mop(i);
    ToLegendreEntryIs(n, i, j, m, f);
    ToLegendreEntryIs(n, i, j', m, g);
    ToLegendreSumsReflect(n, i, j, j', m, p, f, g);
    ChooseSymmetric(n, j);
    ToLegendreScaledSign(Sum(0, m, f), p, n, i, j, j');
  }

  /** Entry (i, j) is the scaled sum of any f that agrees with its terms, taken over 0..i. */
  lemma ToLegendreEntryIs(n: nat, i: nat, j: nat, m: int, f: int -> real)
    requires i <= n && j <= n && m == i + 1
    requires forall k :: f(k) == ToLegendreTerm(n, i, j, k)
    ensures ToLegendreEntry(n, i, j) == ToLegendreScaled(Sum(0, m, f), n, i, j)
  {
    SumExt(0, i + 1, k => ToLegendreTerm(n, i, j, k), f);
  }

  /** The sum for entry (i, n - j) is (-1)^i times the sum for entry (i, j). */
  lemma ToLegendreSumsReflect(n: nat, i: nat, j: nat, j': nat, m: int, p: real, f: int -> real, g: int -> real)
    requires i <= n && j <= n && j' == n - j && m == i + 1 && p == Mop(i)
    requires forall k :: f(k) == ToLegendreTerm(n, i, j, k) && g(k) == ToLegendreTerm(n, i, j', k)
    ensures Sum(0, m, g) == p * Sum(0, m, f)
  {
    ToLegendreTermsReflect(n, i, j, j', m, p);
    SumReflect(m, p, f, g);
  }

  /** Read backwards, the terms for entry (i, n - j) are (-1)^i times those for entry (i, j). */
  lemma ToLegendreTermsReflect(n: nat, i: nat, j: nat, j': nat, m: int, p: real)
    requires i <= n && j <= n && j' == n - j && m == i + 1 && p == Mop(i)
    ensures forall k :: 0 <= k < m ==> ToLegendreTerm(n, i, j', m - 1 - k) == p * ToLegendreTerm(n, i, j, k)
  {
    forall k | 0 <= k < m
      ensures ToLegendreTerm(n, i, j', m - 1 - k) == p * ToLegendreTerm(n, i, j, k)
    {
      var k' := m - 1 - k;
      ToLegendreTermReflect(n, i, j, k, j', k');
    }
  }

  /** Columns j and j' = n - j share the factor C(n, j) = C(n, n - j). */
  lemma ToLegendreScaledSign(s: real, p: real, n: nat, i: nat, j: nat, j': nat)
    requires i <= n && j <= n && j' == n - j && RChoose(n, j') == RChoose(n, j)
    ensures ToLegendreScaled(p * s, n, i, j') == p * ToLegendreScaled(s, n, i, j)
  {
    ScaledFactor(p, s, RChoose(n, j), RChoose(n, j'), (2 * i + 1) as real, (n + i + 1) as real);
  }

  /** A factor p in front of s survives multiplication by c and e and division by d. */
  lemma ScaledFactor(p: real, s: real, c: real, c': real, e: real, d: real)
    requires c' == c && d != 0.0
    ensures p * s * c' * e / d == p * (s * c * e / d)
  {
  }

  /** Term k' = i - k of column j' = n - j is (-1)^i times term k of column j. */
  lemma ToLegendreTermReflect(n: nat, i: nat, j: nat, k: nat, j': nat, k': nat)
    requires i <= n && j <= n && k <= i && j' == n - j && k' == i - k
    ensures ToLegendreTerm(n, i, j', k') == Mop(i) * ToLegendreTerm(n, i, j, k)
  {
    ToLegendreReflectedFactors(n, i, j, k, j', k');
    ToLegendreTermSigned(n, i, j', k', j, k, Mop(i));
  }

  /** The factors of term k' = i - k of column j' = n - j against those of term k of column j. */
  lemma ToLegendreReflectedFactors(n: nat, i: nat, j: nat, k: nat, j': nat, k': nat)
    requires i <= n && j <= n && k <= i && j' == n - j && k' == i - k
    ensures Mop(i + k') == Mop(i) * Mop(i + k)
    ensures RChoose(i, k') == RChoose(i, k)
    ensures RChoose(n + i, j' + k') == RChoose(n + i, j + k) && RChoose(n + i, j + k) != 0.0
  {
    ChooseComplement(i, k', k);
    ChooseComplement(n + i, j' + k', j + k);
    MopReflect(i, k, k');
    Denominators(n, i, j, k);
  }

  /** Two terms of row i with equal binomial factors and signs differing by p differ by p. */
  lemma ToLegendreTermSigned(n: nat, i: nat, j1: nat, k1: nat, j2: nat, k2: nat, p: real)
    requires j1 <= n && k1 <= i && j2 <= n && k2 <= i
    requires Mop(i + k1) == p * Mop(i + k2)
    requires RChoose(i, k1) == RChoose(i, k2)
    requires RChoose(n + i, j1 + k1) == RChoose(n + i, j2 + k2) && RChoose(n + i, j2 + k2) != 0.0
    ensures ToLegendreTerm(n, i, j1, k1) == p * ToLegendreTerm(n, i, j2, k2)
  {
    QuotientSigned(Mop(i + k1), Mop(i + k2), p, RChoose(i, k1), RChoose(i, k2),
      RChoose(n + i, j1 + k1), RChoose(n + i, j2 + k2));
    ToLegendreTermIs(n, i, j1, k1, Mop(i + k1) * Square(RChoose(i, k1)) / RChoose(n + i, j1 + k1));
    ToLegendreTermIs(n, i, j2, k2, Mop(i + k2) * Square(RChoose(i, k2)) / RChoose(n + i, j2 + k2));
  }

  /** Equal binomial factors and signs differing by p give quotients differing by p. */
  lemma QuotientSigned(m1: real, m2: real, p: real, c1: real, c2: real, d1: real, d2: real)
    requires m1 == p * m2 && c1 == c2 && d1 == d2 && d2 != 0.0
    ensures m1 * Square(c1) / d1 == p * (m2 * Square(c2) / d2)
  {
    assert m1 * Square(c1) / d1 == p * (m2 * Square(c2)) / d2;
  }

  /**
   * The Legendre-to-Bernstein matrix under reflection: row n - i is row i
   * times (-1)^j, for every degree.
   */
  lemma ToBernsteinReflect(n: nat, i: int, j: int)
    ensures ToBernsteinEntry(n, n - i, j) == Mop(j) * ToBernsteinEntry(n, i, j)
  {
    if 0 <= i <= n && 0 <= j <= n {
      var i' := n - i;
      ToBernsteinRowReflect(n, i, j, i', k => ToBernsteinTerm(n, i, j, k), k => ToBernsteinTerm(n, i', j, k));
    } else {
      assert ToBernsteinEntry(n, n - i, j) == 0.0;
    }
  }

  /** Entry (i', j) with i' = n - i is (-1)^j times entry (i, j). */
  lemma ToBernsteinRowReflect(n: nat, i: nat, j: nat, i': nat, f: int -> real, g: int -> real)
    requires i <= n && j <= n && i' == n - i
    requires forall k :: f(k) == ToBernsteinTerm(n, i, j, k) && g(k) == ToBernsteinTerm(n, i', j, k)
    ensures ToBernsteinEntry(n, i', j) == Mop(j) * ToBernsteinEntry(n, i, j)
  {
    var m, p := j + 1, Mop(j);
    ToBernsteinEntryIs(n, i, j, m, f);
    ToBernsteinEntryIs(n, i', j, m, g);
    ToBernsteinSumsReflect(n, i, j, i', m, p, f, g);
    ToBernsteinScaledSign(Sum(0, m, f), p, n, i, i');
  }

  /** Entry (i, j) is the scaled sum of any f that agrees with its terms, taken over 0..j. */
  lemma ToBernsteinEntryIs(n: nat, i: nat, j: nat, m: int, f: int -> real)
    requires i <= n && j <= n && m == j + 1
    requires forall k :: f(k) == ToBernsteinTerm(n, i, j, k)
    ensures ToBernsteinEntry(n, i, j) == ToBernsteinScaled(Sum(0, m, f), n, i)
  {
    ToBernsteinSupport(n, i, j);
    SumExt(0, j + 1, k => ToBernsteinTerm(n, i, j, k), f);
  }

  /** Outside max(0, i + j - n)..min(i, j) the terms vanish, so the sum may run over 0..j. */
  lemma ToBernsteinSupport(n: nat, i: nat, j: nat)
    requires i <= n && j <= n
    ensures Sum(First(n, i, j), Last(i, j), k => ToBernsteinTerm(n, i, j, k))
      == Sum(0, j + 1, k => ToBernsteinTerm(n, i, j, k))
  {
    forall k | 0 <= k < First(n, i, j) || Last(i, j) <= k < j + 1
      ensures ToBernsteinTerm(n, i, j, k) == 0.0
    {
      assert Choose(n - j, i - k) == 0;
      ToBernsteinTermIs(n, i, j, k, Mop(j + k) * Square(RChoose(j, k)) * 0.0);
    }
    SumSupport(0, j + 1, First(n, i, j), Last(i, j), k => ToBernsteinTerm(n, i, j, k));
  }

  /** The sum for entry (n - i, j) over 0..j is (-1)^j times the one for entry (i, j). */
  lemma ToBernsteinSumsReflect(n: nat, i: nat, j: nat, i': nat, m: int, p: real, f: int -> real, g: int -> real)
    requires i <= n && j <= n && i' == n - i && m == j + 1 && p == Mop(j)
    requires forall k :: f(k) == ToBernsteinTerm(n, i, j, k) && g(k) == ToBernsteinTerm(n, i', j, k)
    ensures Sum(0, m, g) == p * Sum(0, m, f)
  {
    ToBernsteinTermsReflect(n, i, j, i', m, p);
    SumReflect(m, p, f, g);
  }

  /** Read backwards, the terms for entry (n - i, j) are (-1)^j times those for entry (i, j). */
  lemma ToBernsteinTermsReflect(n: nat, i: nat, j: nat, i': nat, m: int, p: real)
    requires i <= n && j <= n && i' == n - i && m == j + 1 && p == Mop(j)
    ensures forall k :: 0 <= k < m ==> ToBernsteinTerm(n, i', j, m - 1 - k) == p * ToBernsteinTerm(n, i, j, k)
  {
    forall k | 0 <= k < m
      ensures ToBernsteinTerm(n, i', j, m - 1 - k) == p * ToBernsteinTerm(n, i, j, k)
    {
      var k' := m - 1 - k;
      ToBernsteinTermReflect(n, i, j, k, i', k');
    }
  }

  /** Term k' = j - k of row i' = n - i is (-1)^j times term k of row i. */
  lemma ToBernsteinTermReflect(n: nat, i: nat, j: nat, k: int, i': nat, k': int)
    requires i <= n && j <= n && i' == n - i && k' == j - k
    ensures ToBernsteinTerm(n, i', j, k') == Mop(j) * ToBernsteinTerm(n, i, j, k)
  {
    ToBernsteinReflectedFactors(n, i, j, k, i', k');
    ToBernsteinTermSigned(n, i', j, k', i, k, Mop(j));
  }

  /** The factors of term k' = j - k of row i' = n - i against those of term k of row i. */
  lemma ToBernsteinReflectedFactors(n: nat, i: nat, j: nat, k: int, i': nat, k': int)
    requires i <= n && j <= n && i' == n - i && k' == j - k
    ensures Mop(j + k') == Mop(j) * Mop(j + k)
    ensures RChoose(j, k') == RChoose(j, k)
    ensures RChoose(n - j, i' - k') == RChoose(n - j, i - k)
  {
    ChooseComplement(j, k', k);
    ChooseComplement(n - j, i' - k', i - k);
    MopReflect(j, k, k');
  }

  /** Two terms of column j with equal binomial factors and signs differing by p differ by p. */
  lemma ToBernsteinTermSigned(n: nat, i1: nat, j: nat, k1: int, i2: nat, k2: int, p: real)
    requires Mop(j + k1) == p * Mop(j + k2)
    requires RChoose(j, k1) == RChoose(j, k2)
    requires RChoose(n - j, i1 - k1) == RChoose(n - j, i2 - k2)
    ensures ToBernsteinTerm(n, i1, j, k1) == p * ToBernsteinTerm(n, i2, j, k2)
  {
    ToBernsteinTermShape(n, i1, j, k1);
    ToBernsteinTermShape(n, i2, j, k2);
    ProductSigned(Mop(j + k1), Mop(j + k2), p, RChoose(j, k1), RChoose(j, k2),
      RChoose(n - j, i1 - k1), RChoose(n - j, i2 - k2));
  }

  /** A term has the shape of a signed product. */
  lemma ToBernsteinTermShape(n: nat, i: int, j: int, k: int)
    ensures ToBernsteinTerm(n, i, j, k) == SignedProduct(Mop(j + k), RChoose(j, k), RChoose(n - j, i - k))
  {
  }

  /** Equal binomial factors and signs differing by p give products differing by p. */
  lemma ProductSigned(m1: real, m2: real, p: real, c1: real, c2: real, d1: real, d2: real)
    requires m1 == p * m2 && c1 == c2 && d1 == d2
    ensures SignedProduct(m1, c1, d1) == p * SignedProduct(m2, c2, d2)
  {
  }

  /** Rows i and i' = n - i share the divisor C(n, i) = C(n, n - i). */
  lemma ToBernsteinScaledSign(s: real, p: real, n: nat, i: nat, i': nat)
    requires i <= n && i' == n - i
    ensures ToBernsteinScaled(p * s, n, i') == p * ToBernsteinScaled(s, n, i)
  {
    ChooseSymmetric(n, i);
    QuotientFactor(p, s, RChoose(n, i), RChoose(n, i'));
  }

  /** A factor p in front of s survives division by d. */
  lemma QuotientFactor(p: real, s: real, d: real, d': real)
    requires d' == d && d != 0.0
    ensures p * s / d' == p * (s / d)
  {
  }

  // ---------------------------------------------------------------------
  // Small orders

  /** For degree 0 both matrices are [[1]]. */
  lemma DegreeZero()
    ensures ToLegendreMatrix(0) == [[1.0]]
    ensures ToBernsteinMatrix(0) == [[1.0]]
  {
    ToLegendreFirstRow(0, 0);
    ToBernsteinFirstColumn(0, 0);
    assert ToLegendreMatrix(0)[0] == [1.0];
    assert ToBernsteinMatrix(0)[0] == [1.0];
  }

  /** The entries of degree 1. */
  lemma OrderOneEntries()
    ensures ToLegendreEntry(1, 0, 0) == 0.5 && ToLegendreEntry(1, 0, 1) == 0.5
    ensures ToLegendreEntry(1, 1, 0) == -0.5 && ToLegendreEntry(1, 1, 1) == 0.5
    ensures ToBernsteinEntry(1, 0, 0) == 1.0 && ToBernsteinEntry(1, 0, 1) == -1.0
    ensures ToBernsteinEntry(1, 1, 0) == 1.0 && ToBernsteinEntry(1, 1, 1) == 1.0
  {
    OrderOneToLegendre();
    OrderOneToBernstein();
  }

  lemma OrderOneToLegendre()
    ensures ToLegendreEntry(1, 0, 0) == 0.5 && ToLegendreEntry(1, 0, 1) == 0.5
    ensures ToLegendreEntry(1, 1, 0) == -0.5 && ToLegendreEntry(1, 1, 1) == 0.5
  {
  }

  lemma OrderOneToBernstein()
    ensures ToBernsteinEntry(1, 0, 0) == 1.0 && ToBernsteinEntry(1, 0, 1) == -1.0
    ensures ToBernsteinEntry(1, 1, 0) == 1.0 && ToBernsteinEntry(1, 1, 1) == 1.0
  {
  }

  /** The Bernstein-to-Legendre entries of degree 2. */
  lemma ToLegendreOrderTwoEntries()
    ensures ToLegendreEntry(2, 0, 0) == 1.0 / 3.0 && ToLegendreEntry(2, 0, 1) == 1.0 / 3.0 && ToLegendreEntry(2, 0, 2) == 1.0 / 3.0
    ensures ToLegendreEntry(2, 1, 0) == -0.5 && ToLegendreEntry(2, 1, 1) == 0.0 && ToLegendreEntry(2, 1, 2) == 0.5
    ensures ToLegendreEntry(2, 2, 0) == 1.0 / 6.0 && ToLegendreEntry(2, 2, 1) == -1.0 / 3.0 && ToLegendreEntry(2, 2, 2) == 1.0 / 6.0
  {
    ToLegendreOrderTwoRow0();
    ToLegendreOrderTwoRow1();
    ToLegendreOrderTwoRow2();
  }

  lemma ToLegendreOrderTwoRow0()
    ensures ToLegendreEntry(2, 0, 0) == 1.0 / 3.0 && ToLegendreEntry(2, 0, 1) == 1.0 / 3.0 && ToLegendreEntry(2, 0, 2) == 1.0 / 3.0
  {
  }

  lemma ToLegendreOrderTwoRow1()
    ensures ToLegendreEntry(2, 1, 0) == -0.5 && ToLegendreEntry(2, 1, 1) == 0.0 && ToLegendreEntry(2, 1, 2) == 0.5
  {
  }

  lemma ToLegendreOrderTwoRow2()
    ensures ToLegendreEntry(2, 2, 0) == 1.0 / 6.0 && ToLegendreEntry(2, 2, 1) == -1.0 / 3.0 && ToLegendreEntry(2, 2, 2) == 1.0 / 6.0
  {
    ToLegendreOrderTwoEntry(0, 1.0 / 6.0);
    ToLegendreOrderTwoEntry(1, -1.0 / 3.0);
    ToLegendreOrderTwoEntry(2, 1.0 / 6.0);
  }

  /** Entry (2, j) of degree 2, for the value v the formula yields. */
  lemma ToLegendreOrderTwoEntry(j: nat, v: real)
    requires ((j == 0 || j == 2) && v == 1.0 / 6.0) || (j == 1 && v == -1.0 / 3.0)
    ensures ToLegendreEntry(2, 2, j) == v
  {
    var f := k => ToLegendreTerm(2, 2, j, k);
    assert Sum(0, 3, f) == f(0) + f(1) + f(2);
  }

  /** The Legendre-to-Bernstein entries of degree 2. */
  lemma ToBernsteinOrderTwoEntries()
    ensures ToBernsteinEntry(2, 0, 0) == 1.0 && ToBernsteinEntry(2, 0, 1) == -1.0 && ToBernsteinEntry(2, 0, 2) == 1.0
    ensures ToBernsteinEntry(2, 1, 0) == 1.0 && ToBernsteinEntry(2, 1, 1) == 0.0 && ToBernsteinEntry(2, 1, 2) == -2.0
    ensures ToBernsteinEntry(2, 2, 0) == 1.0 && ToBernsteinEntry(2, 2, 1) == 1.0 && ToBernsteinEntry(2, 2, 2) == 1.0
  {
    ToBernsteinOrderTwoRow0();
    ToBernsteinOrderTwoRow1();
    ToBernsteinOrderTwoRow2();
  }

  lemma ToBernsteinOrderTwoRow0()
    ensures ToBernsteinEntry(2, 0, 0) == 1.0 && ToBernsteinEntry(2, 0, 1) == -1.0 && ToBernsteinEntry(2, 0, 2) == 1.0
  {
  }

  lemma ToBernsteinOrderTwoRow1()
    ensures ToBernsteinEntry(2, 1, 0) == 1.0 && ToBernsteinEntry(2, 1, 1) == 0.0 && ToBernsteinEntry(2, 1, 2) == -2.0
  {
  }

  lemma ToBernsteinOrderTwoRow2()
    ensures ToBernsteinEntry(2, 2, 0) == 1.0 && ToBernsteinEntry(2, 2, 1) == 1.0 && ToBernsteinEntry(2, 2, 2) == 1.0
  {
  }

  /** Both matrices of degree 1. */
  lemma OrderOne()
    ensures ToLegendreMatrix(1) == [[0.5, 0.5], [-0.5, 0.5]]
    ensures ToBernsteinMatrix(1) == [[1.0, -1.0], [1.0, 1.0]]
  {
    OrderOneEntries();
    var p, q := ToLegendreMatrix(1), ToBernsteinMatrix(1);
    assert p[0] == [0.5, 0.5] && p[1] == [-0.5, 0.5];
    assert q[0] == [1.0, -1.0] && q[1] == [1.0, 1.0];
  }

  /** The Bernstein-to-Legendre matrix of degree 2. */
  lemma ToLegendreOrderTwo()
    ensures ToLegendreMatrix(2) == [[1.0 / 3.0, 1.0 / 3.0, 1.0 / 3.0], [-0.5, 0.0, 0.5], [1.0 / 6.0, -1.0 / 3.0, 1.0 / 6.0]]
  {
    ToLegendreOrderTwoEntries();
    var p := ToLegendreMatrix(2);
    assert p[0] == [1.0 / 3.0, 1.0 / 3.0, 1.0 / 3.0];
    assert p[1] == [-0.5, 0.0, 0.5];
    assert p[2] == [1.0 / 6.0, -1.0 / 3.0, 1.0 / 6.0];
  }

  /** The Legendre-to-Bernstein matrix of degree 2. */
  lemma ToBernsteinOrderTwo()
    ensures ToBernsteinMatrix(2) == [[1.0, -1.0, 1.0], [1.0, 0.0, -2.0], [1.0, 1.0, 1.0]]
  {
    ToBernsteinOrderTwoEntries();
    var q := ToBernsteinMatrix(2);
    assert q[0] == [1.0, -1.0, 1.0];
    assert q[1] == [1.0, 0.0, -2.0];
    assert q[2] == [1.0, 1.0, 1.0];
  }

  /** Round trip for degrees 0, 1 and 2: Bernstein-to-Legendre times Legendre-to-Bernstein is the identity. */
  lemma SmallRoundTrip(n: nat)
    requires n <= 2
    ensures MatMul(ToLegendreMatrix(n), ToBernsteinMatrix(n), n + 1) == Identity(n + 1)
  {
    if n == 0 {
      DegreeZero();
      LiteralProductZero();
    } else if n == 1 {
      OrderOne();
      LiteralProductOne();
    } else {
      ToLegendreOrderTwo();
      ToBernsteinOrderTwo();
      LiteralProductTwo();
    }
  }

  /** The product of the literal matrices of degree 0. */
  lemma LiteralProductZero()
    ensures MatMul([[1.0]], [[1.0]], 1) == Identity(1)
  {
    var p := MatMul([[1.0]], [[1.0]], 1);
    assert p[0] == Identity(1)[0];
  }

  /** The product of the literal matrices of degree 1. */
  lemma LiteralProductOne()
    ensures MatMul([[0.5, 0.5], [-0.5, 0.5]], [[1.0, -1.0], [1.0, 1.0]], 2) == Identity(2)
  {
    var p := MatMul([[0.5, 0.5], [-0.5, 0.5]], [[1.0, -1.0], [1.0, 1.0]], 2);
    assert p[0] == Identity(2)[0];
    assert p[1] == Identity(2)[1];
  }

  /** The product of the literal matrices of degree 2. */
  lemma LiteralProductTwo()
    ensures MatMul([[1.0 / 3.0, 1.0 / 3.0, 1.0 / 3.0], [-0.5, 0.0, 0.5], [1.0 / 6.0, -1.0 / 3.0, 1.0 / 6.0]],
                   [[1.0, -1.0, 1.0], [1.0, 0.0, -2.0], [1.0, 1.0, 1.0]], 3) == Identity(3)
  {
    var p := MatMul([[1.0 / 3.0, 1.0 / 3.0, 1.0 / 3.0], [-0.5, 0.0, 0.5], [1.0 / 6.0, -1.0 / 3.0, 1.0 / 6.0]],
                    [[1.0, -1.0, 1.0], [1.0, 0.0, -2.0], [1.0, 1.0, 1.0]], 3);
    assert p[0] == Identity(3)[0];
    assert p[1] == Identity(3)[1];
    assert p[2] == Identity(3)[2];
  }
}
