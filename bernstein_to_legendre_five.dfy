/**
 * The degree-5 instance of the Bernstein/Legendre round trip: both
 * conversion matrices written out entry by entry, and their product the
 * identity of order 6.
 *
 * Every lemma here is stated for a degree n with n == 5 rather than for the
 * literal 5. A literal degree makes the verifier evaluate every binomial up
 * to C(10, 5) by unfolding Pascal's rule from the top; with a variable degree
 * the binomials are computed once, row by row, by the Binomials lemmas.
 */
module BLegendreFive {
  import opened Algebra
  import opened Combinatorics
  import opened Matrices
  import opened BLegendre

  /** The Bernstein-to-Legendre matrix of degree 5. */
  const ToLegendreFive: Matrix := [
    [1.0 / 6.0, 1.0 / 6.0, 1.0 / 6.0, 1.0 / 6.0, 1.0 / 6.0, 1.0 / 6.0],
    [-5.0 / 14.0, -3.0 / 14.0, -1.0 / 14.0, 1.0 / 14.0, 3.0 / 14.0, 5.0 / 14.0],
    [25.0 / 84.0, -5.0 / 84.0, -5.0 / 21.0, -5.0 / 21.0, -5.0 / 84.0, 25.0 / 84.0],
    [-5.0 / 36.0, 7.0 / 36.0, 1.0 / 9.0, -1.0 / 9.0, -7.0 / 36.0, 5.0 / 36.0],
    [1.0 / 28.0, -3.0 / 28.0, 1.0 / 14.0, 1.0 / 14.0, -3.0 / 28.0, 1.0 / 28.0],
    [-1.0 / 252.0, 5.0 / 252.0, -5.0 / 126.0, 5.0 / 126.0, -5.0 / 252.0, 1.0 / 252.0]]

  /** The Legendre-to-Bernstein matrix of degree 5. */
  const ToBernsteinFive: Matrix := [
    [1.0, -1.0, 1.0, -1.0, 1.0, -1.0],
    [1.0, -3.0 / 5.0, -1.0 / 5.0, 7.0 / 5.0, -3.0, 5.0],
    [1.0, -1.0 / 5.0, -4.0 / 5.0, 4.0 / 5.0, 2.0, -10.0],
    [1.0, 1.0 / 5.0, -4.0 / 5.0, -4.0 / 5.0, 2.0, 10.0],
    [1.0, 3.0 / 5.0, -1.0 / 5.0, -7.0 / 5.0, -3.0, -5.0],
    [1.0, 1.0, 1.0, 1.0, 1.0, 1.0]]

  // ---------------------------------------------------------------------
  // Binomials of rows 0 to 10, relative to n = 5

  /** Row 5 of Pascal's triangle, as C(n, b). */
  lemma BinomialsBelow0(n: nat)
    requires n == 5
    ensures RChoose(n, 0) == 1.0 && RChoose(n, 1) == 5.0 && RChoose(n, 2) == 10.0 && RChoose(n, 3) == 10.0 && RChoose(n, 4) == 5.0 && RChoose(n, 5) == 1.0
  {
    assert n == 5;
  }

  /** Row 4 of Pascal's triangle, as C(n - 1, b). */
  lemma BinomialsBelow1(n: nat)
    requires n == 5
    ensures RChoose(n - 1, 0) == 1.0 && RChoose(n - 1, 1) == 4.0 && RChoose(n - 1, 2) == 6.0 && RChoose(n - 1, 3) == 4.0 && RChoose(n - 1, 4) == 1.0
  {
    assert n - 1 == 4;
  }

  /** Row 3 of Pascal's triangle, as C(n - 2, b). */
  lemma BinomialsBelow2(n: nat)
    requires n == 5
    ensures RChoose(n - 2, 0) == 1.0 && RChoose(n - 2, 1) == 3.0 && RChoose(n - 2, 2) == 3.0 && RChoose(n - 2, 3) == 1.0
  {
    assert n - 2 == 3;
  }

  /** Row 2 of Pascal's triangle, as C(n - 3, b). */
  lemma BinomialsBelow3(n: nat)
    requires n == 5
    ensures RChoose(n - 3, 0) == 1.0 && RChoose(n - 3, 1) == 2.0 && RChoose(n - 3, 2) == 1.0
  {
    assert n - 3 == 2;
  }

  /** Row 1 of Pascal's triangle, as C(n - 4, b). */
  lemma BinomialsBelow4(n: nat)
    requires n == 5
    ensures RChoose(n - 4, 0) == 1.0 && RChoose(n - 4, 1) == 1.0
  {
    assert n - 4 == 1;
  }

  /** Row 0 of Pascal's triangle, as C(n - 5, b). */
  lemma BinomialsBelow5(n: nat)
    requires n == 5
    ensures RChoose(n - 5, 0) == 1.0
  {
    assert n - 5 == 0;
  }

  /** Row 6 of Pascal's triangle, as C(n + 1, b), from row 5 by Pascal's rule. */
  lemma BinomialsAbove1(n: nat)
    requires n == 5
    ensures RChoose(n + 1, 0) == 1.0 && RChoose(n + 1, 1) == 6.0 && RChoose(n + 1, 2) == 15.0 && RChoose(n + 1, 3) == 20.0 && RChoose(n + 1, 4) == 15.0 && RChoose(n + 1, 5) == 6.0 && RChoose(n + 1, 6) == 1.0
  {
    BinomialsBelow0(n);
    Pascal(n + 1, 0); Pascal(n + 1, 1); Pascal(n + 1, 2); Pascal(n + 1, 3); Pascal(n + 1, 4); Pascal(n + 1, 5); Pascal(n + 1, 6);
  }

  /** Row 7 of Pascal's triangle, as C(n + 2, b), from row 6 by Pascal's rule. */
  lemma BinomialsAbove2(n: nat)
    requires n == 5
    ensures RChoose(n + 2, 0) == 1.0 && RChoose(n + 2, 1) == 7.0 && RChoose(n + 2, 2) == 21.0 && RChoose(n + 2, 3) == 35.0 && RChoose(n + 2, 4) == 35.0 && RChoose(n + 2, 5) == 21.0 && RChoose(n + 2, 6) == 7.0 && RChoose(n + 2, 7) == 1.0
  {
    BinomialsAbove1(n);
    Pascal(n + 2, 0); Pascal(n + 2, 1); Pascal(n + 2, 2); Pascal(n + 2, 3); Pascal(n + 2, 4); Pascal(n + 2, 5); Pascal(n + 2, 6); Pascal(n + 2, 7);
  }

  /** Row 8 of Pascal's triangle, as C(n + 3, b), from row 7 by Pascal's rule. */
  lemma BinomialsAbove3(n: nat)
    requires n == 5
    ensures RChoose(n + 3, 0) == 1.0 && RChoose(n + 3, 1) == 8.0 && RChoose(n + 3, 2) == 28.0 && RChoose(n + 3, 3) == 56.0 && RChoose(n + 3, 4) == 70.0 && RChoose(n + 3, 5) == 56.0 && RChoose(n + 3, 6) == 28.0 && RChoose(n + 3, 7) == 8.0 && RChoose(n + 3, 8) == 1.0
  {
    BinomialsAbove2(n);
    Pascal(n + 3, 0); Pascal(n + 3, 1); Pascal(n + 3, 2); Pascal(n + 3, 3); Pascal(n + 3, 4); Pascal(n + 3, 5); Pascal(n + 3, 6); Pascal(n + 3, 7); Pascal(n + 3, 8);
  }

  /** Row 9 of Pascal's triangle, as C(n + 4, b), from row 8 by Pascal's rule. */
  lemma BinomialsAbove4(n: nat)
    requires n == 5
    ensures RChoose(n + 4, 0) == 1.0 && RChoose(n + 4, 1) == 9.0 && RChoose(n + 4, 2) == 36.0 && RChoose(n + 4, 3) == 84.0 && RChoose(n + 4, 4) == 126.0 && RChoose(n + 4, 5) == 126.0 && RChoose(n + 4, 6) == 84.0 && RChoose(n + 4, 7) == 36.0 && RChoose(n + 4, 8) == 9.0 && RChoose(n + 4, 9) == 1.0
  {
    BinomialsAbove3(n);
    Pascal(n + 4, 0); Pascal(n + 4, 1); Pascal(n + 4, 2); Pascal(n + 4, 3); Pascal(n + 4, 4); Pascal(n + 4, 5); Pascal(n + 4, 6); Pascal(n + 4, 7); Pascal(n + 4, 8); Pascal(n + 4, 9);
  }

  /** Row 10 of Pascal's triangle, as C(n + 5, b), from row 9 by Pascal's rule. */
  lemma BinomialsAbove5(n: nat)
    requires n == 5
    ensures RChoose(n + 5, 0) == 1.0 && RChoose(n + 5, 1) == 10.0 && RChoose(n + 5, 2) == 45.0 && RChoose(n + 5, 3) == 120.0 && RChoose(n + 5, 4) == 210.0 && RChoose(n + 5, 5) == 252.0 && RChoose(n + 5, 6) == 210.0 && RChoose(n + 5, 7) == 120.0 && RChoose(n + 5, 8) == 45.0 && RChoose(n + 5, 9) == 10.0 && RChoose(n + 5, 10) == 1.0
  {
    BinomialsAbove4(n);
    Pascal(n + 5, 0); Pascal(n + 5, 1); Pascal(n + 5, 2); Pascal(n + 5, 3); Pascal(n + 5, 4); Pascal(n + 5, 5); Pascal(n + 5, 6); Pascal(n + 5, 7); Pascal(n + 5, 8); Pascal(n + 5, 9); Pascal(n + 5, 10);
  }

  // ---------------------------------------------------------------------
  // Bernstein to Legendre

  /** A term of the Bernstein-to-Legendre sum, from the values of its sign and binomials. */
  lemma ToLegendreTermValue(n: nat, i: nat, j: nat, k: nat, s: real, c: real, d: real, v: real)
    requires j <= n && k <= i
    requires Mop(i + k) == s && RChoose(i, k) == c && RChoose(n + i, j + k) == d && d != 0.0
    requires v == s * Square(c) / d
    ensures ToLegendreTerm(n, i, j, k) == v
  {
    ToLegendreTermIs(n, i, j, k, v);
  }

  /** Term 0 of the sum for Bernstein-to-Legendre entry (1, 0). */
  lemma ToLegendreFiveTerm_1_0_0(n: nat)
    requires n == 5
    ensures ToLegendreTerm(n, 1, 0, 0) == -1.0
  {
    BinomialsAbove1(n);
    ToLegendreTermValue(n, 1, 0, 0, -1.0, 1.0, 1.0, -1.0);
  }

  /** Term 1 of the sum for Bernstein-to-Legendre entry (1, 0). */
  lemma ToLegendreFiveTerm_1_0_1(n: nat)
    requires n == 5
    ensures ToLegendreTerm(n, 1, 0, 1) == 1.0 / 6.0
  {
    BinomialsAbove1(n);
    ToLegendreTermValue(n, 1, 0, 1, 1.0, 1.0, 6.0, 1.0 / 6.0);
  }

  /** Bernstein-to-Legendre entry (1, 0): its terms summed and scaled. */
  lemma ToLegendreFive_1_0(n: nat)
    requires n == 5
    ensures ToLegendreMatrix(n)[1][0] == -5.0 / 14.0
  {
    BinomialsBelow0(n);
    ToLegendreFiveTerm_1_0_0(n);
    ToLegendreFiveTerm_1_0_1(n);
    var f := k => ToLegendreTerm(n, 1, 0, k);
    assert Sum(0, 2, f) == f(0) + f(1);
    assert Sum(0, 2, f) == -5.0 / 6.0;
  }

  /** Term 0 of the sum for Bernstein-to-Legendre entry (1, 1). */
  lemma ToLegendreFiveTerm_1_1_0(n: nat)
    requires n == 5
    ensures ToLegendreTerm(n, 1, 1, 0) == -1.0 / 6.0
  {
    BinomialsAbove1(n);
    ToLegendreTermValue(n, 1, 1, 0, -1.0, 1.0, 6.0, -1.0 / 6.0);
  }

  /** Term 1 of the sum for Bernstein-to-Legendre entry (1, 1). */
  lemma ToLegendreFiveTerm_1_1_1(n: nat)
    requires n == 5
    ensures ToLegendreTerm(n, 1, 1, 1) == 1.0 / 15.0
  {
    BinomialsAbove1(n);
    ToLegendreTermValue(n, 1, 1, 1, 1.0, 1.0, 15.0, 1.0 / 15.0);
  }

  /** Bernstein-to-Legendre entry (1, 1): its terms summed and scaled. */
  lemma ToLegendreFive_1_1(n: nat)
    requires n == 5
    ensures ToLegendreMatrix(n)[1][1] == -3.0 / 14.0
  {
    BinomialsBelow0(n);
    ToLegendreFiveTerm_1_1_0(n);
    ToLegendreFiveTerm_1_1_1(n);
    var f := k => ToLegendreTerm(n, 1, 1, k);
    assert Sum(0, 2, f) == f(0) + f(1);
    assert Sum(0, 2, f) == -1.0 / 10.0;
  }

  /** Term 0 of the sum for Bernstein-to-Legendre entry (1, 2). */
  lemma ToLegendreFiveTerm_1_2_0(n: nat)
    requires n == 5
    ensures ToLegendreTerm(n, 1, 2, 0) == -1.0 / 15.0
  {
    BinomialsAbove1(n);
    ToLegendreTermValue(n, 1, 2, 0, -1.0, 1.0, 15.0, -1.0 / 15.0);
  }

  /** Term 1 of the sum for Bernstein-to-Legendre entry (1, 2). */
  lemma ToLegendreFiveTerm_1_2_1(n: nat)
    requires n == 5
    ensures ToLegendreTerm(n, 1, 2, 1) == 1.0 / 20.0
  {
    BinomialsAbove1(n);
    ToLegendreTermValue(n, 1, 2, 1, 1.0, 1.0, 20.0, 1.0 / 20.0);
  }

  /** Bernstein-to-Legendre entry (1, 2): its terms summed and scaled. */
  lemma ToLegendreFive_1_2(n: nat)
    requires n == 5
    ensures ToLegendreMatrix(n)[1][2] == -1.0 / 14.0
  {
    BinomialsBelow0(n);
    ToLegendreFiveTerm_1_2_0(n);
    ToLegendreFiveTerm_1_2_1(n);
    var f := k => ToLegendreTerm(n, 1, 2, k);
    assert Sum(0, 2, f) == f(0) + f(1);
    assert Sum(0, 2, f) == -1.0 / 60.0;
  }

  /** Term 0 of the sum for Bernstein-to-Legendre entry (1, 3). */
  lemma ToLegendreFiveTerm_1_3_0(n: nat)
    requires n == 5
    ensures ToLegendreTerm(n, 1, 3, 0) == -1.0 / 20.0
  {
    BinomialsAbove1(n);
    ToLegendreTermValue(n, 1, 3, 0, -1.0, 1.0, 20.0, -1.0 / 20.0);
  }

  /** Term 1 of the sum for Bernstein-to-Legendre entry (1, 3). */
  lemma ToLegendreFiveTerm_1_3_1(n: nat)
    requires n == 5
    ensures ToLegendreTerm(n, 1, 3, 1) == 1.0 / 15.0
  {
    BinomialsAbove1(n);
    ToLegendreTermValue(n, 1, 3, 1, 1.0, 1.0, 15.0, 1.0 / 15.0);
  }

  /** Bernstein-to-Legendre entry (1, 3): its terms summed and scaled. */
  lemma ToLegendreFive_1_3(n: nat)
    requires n == 5
    ensures ToLegendreMatrix(n)[1][3] == 1.0 / 14.0
  {
    BinomialsBelow0(n);
    ToLegendreFiveTerm_1_3_0(n);
    ToLegendreFiveTerm_1_3_1(n);
    var f := k => ToLegendreTerm(n, 1, 3, k);
    assert Sum(0, 2, f) == f(0) + f(1);
    assert Sum(0, 2, f) == 1.0 / 60.0;
  }

  /** Term 0 of the sum for Bernstein-to-Legendre entry (1, 4). */
  lemma ToLegendreFiveTerm_1_4_0(n: nat)
    requires n == 5
    ensures ToLegendreTerm(n, 1, 4, 0) == -1.0 / 15.0
  {
    BinomialsAbove1(n);
    ToLegendreTermValue(n, 1, 4, 0, -1.0, 1.0, 15.0, -1.0 / 15.0);
  }

  /** Term 1 of the sum for Bernstein-to-Legendre entry (1, 4). */
  lemma ToLegendreFiveTerm_1_4_1(n: nat)
    requires n == 5
    ensures ToLegendreTerm(n, 1, 4, 1) == 1.0 / 6.0
  {
    BinomialsAbove1(n);
    ToLegendreTermValue(n, 1, 4, 1, 1.0, 1.0, 6.0, 1.0 / 6.0);
  }

  /** Bernstein-to-Legendre entry (1, 4): its terms summed and scaled. */
  lemma ToLegendreFive_1_4(n: nat)
    requires n == 5
    ensures ToLegendreMatrix(n)[1][4] == 3.0 / 14.0
  {
    BinomialsBelow0(n);
    ToLegendreFiveTerm_1_4_0(n);
    ToLegendreFiveTerm_1_4_1(n);
    var f := k => ToLegendreTerm(n, 1, 4, k);
    assert Sum(0, 2, f) == f(0) + f(1);
    assert Sum(0, 2, f) == 1.0 / 10.0;
  }

  /** Term 0 of the sum for Bernstein-to-Legendre entry (1, 5). */
  lemma ToLegendreFiveTerm_1_5_0(n: nat)
    requires n == 5
    ensures ToLegendreTerm(n, 1, 5, 0) == -1.0 / 6.0
  {
    BinomialsAbove1(n);
    ToLegendreTermValue(n, 1, 5, 0, -1.0, 1.0, 6.0, -1.0 / 6.0);
  }

  /** Term 1 of the sum for Bernstein-to-Legendre entry (1, 5). */
  lemma ToLegendreFiveTerm_1_5_1(n: nat)
    requires n == 5
    ensures ToLegendreTerm(n, 1, 5, 1) == 1.0
  {
    BinomialsAbove1(n);
    ToLegendreTermValue(n, 1, 5, 1, 1.0, 1.0, 1.0, 1.0);
  }

  /** Bernstein-to-Legendre entry (1, 5): its terms summed and scaled. */
  lemma ToLegendreFive_1_5(n: nat)
    requires n == 5
    ensures ToLegendreMatrix(n)[1][5] == 5.0 / 14.0
  {
    BinomialsBelow0(n);
    ToLegendreFiveTerm_1_5_0(n);
    ToLegendreFiveTerm_1_5_1(n);
    var f := k => ToLegendreTerm(n, 1, 5, k);
    assert Sum(0, 2, f) == f(0) + f(1);
    assert Sum(0, 2, f) == 5.0 / 6.0;
  }

  /** Term 0 of the sum for Bernstein-to-Legendre entry (2, 0). */
  lemma ToLegendreFiveTerm_2_0_0(n: nat)
    requires n == 5
    ensures ToLegendreTerm(n, 2, 0, 0) == 1.0
  {
    BinomialsAbove2(n);
    ToLegendreTermValue(n, 2, 0, 0, 1.0, 1.0, 1.0, 1.0);
  }

  /** Term 1 of the sum for Bernstein-to-Legendre entry (2, 0). */
  lemma ToLegendreFiveTerm_2_0_1(n: nat)
    requires n == 5
    ensures ToLegendreTerm(n, 2, 0, 1) == -4.0 / 7.0
  {
    BinomialsAbove2(n);
    ToLegendreTermValue(n, 2, 0, 1, -1.0, 2.0, 7.0, -4.0 / 7.0);
  }

  /** Term 2 of the sum for Bernstein-to-Legendre entry (2, 0). */
  lemma ToLegendreFiveTerm_2_0_2(n: nat)
    requires n == 5
    ensures ToLegendreTerm(n, 2, 0, 2) == 1.0 / 21.0
  {
    BinomialsAbove2(n);
    ToLegendreTermValue(n, 2, 0, 2, 1.0, 1.0, 21.0, 1.0 / 21.0);
  }

  /** Bernstein-to-Legendre entry (2, 0): its terms summed and scaled. */
  lemma ToLegendreFive_2_0(n: nat)
    requires n == 5
    ensures ToLegendreMatrix(n)[2][0] == 25.0 / 84.0
  {
    BinomialsBelow0(n);
    ToLegendreFiveTerm_2_0_0(n);
    ToLegendreFiveTerm_2_0_1(n);
    ToLegendreFiveTerm_2_0_2(n);
    var f := k => ToLegendreTerm(n, 2, 0, k);
    assert Sum(0, 3, f) == f(0) + f(1) + f(2);
    assert Sum(0, 3, f) == 10.0 / 21.0;
  }

  /** Term 0 of the sum for Bernstein-to-Legendre entry (2, 1). */
  lemma ToLegendreFiveTerm_2_1_0(n: nat)
    requires n == 5
    ensures ToLegendreTerm(n, 2, 1, 0) == 1.0 / 7.0
  {
    BinomialsAbove2(n);
    ToLegendreTermValue(n, 2, 1, 0, 1.0, 1.0, 7.0, 1.0 / 7.0);
  }

  /** Term 1 of the sum for Bernstein-to-Legendre entry (2, 1). */
  lemma ToLegendreFiveTerm_2_1_1(n: nat)
    requires n == 5
    ensures ToLegendreTerm(n, 2, 1, 1) == -4.0 / 21.0
  {
    BinomialsAbove2(n);
    ToLegendreTermValue(n, 2, 1, 1, -1.0, 2.0, 21.0, -4.0 / 21.0);
  }

  /** Term 2 of the sum for Bernstein-to-Legendre entry (2, 1). */
  lemma ToLegendreFiveTerm_2_1_2(n: nat)
    requires n == 5
    ensures ToLegendreTerm(n, 2, 1, 2) == 1.0 / 35.0
  {
    BinomialsAbove2(n);
    ToLegendreTermValue(n, 2, 1, 2, 1.0, 1.0, 35.0, 1.0 / 35.0);
  }

  /** Bernstein-to-Legendre entry (2, 1): its terms summed and scaled. */
  lemma ToLegendreFive_2_1(n: nat)
    requires n == 5
    ensures ToLegendreMatrix(n)[2][1] == -5.0 / 84.0
  {
    BinomialsBelow0(n);
    ToLegendreFiveTerm_2_1_0(n);
    ToLegendreFiveTerm_2_1_1(n);
    ToLegendreFiveTerm_2_1_2(n);
    var f := k => ToLegendreTerm(n, 2, 1, k);
    assert Sum(0, 3, f) == f(0) + f(1) + f(2);
    assert Sum(0, 3, f) == -2.0 / 105.0;
  }

  /** Term 0 of the sum for Bernstein-to-Legendre entry (2, 2). */
  lemma ToLegendreFiveTerm_2_2_0(n: nat)
    requires n == 5
    ensures ToLegendreTerm(n, 2, 2, 0) == 1.0 / 21.0
  {
    BinomialsAbove2(n);
    ToLegendreTermValue(n, 2, 2, 0, 1.0, 1.0, 21.0, 1.0 / 21.0);
  }

  /** Term 1 of the sum for Bernstein-to-Legendre entry (2, 2). */
  lemma ToLegendreFiveTerm_2_2_1(n: nat)
    requires n == 5
    ensures ToLegendreTerm(n, 2, 2, 1) == -4.0 / 35.0
  {
    BinomialsAbove2(n);
    ToLegendreTermValue(n, 2, 2, 1, -1.0, 2.0, 35.0, -4.0 / 35.0);
  }

  /** Term 2 of the sum for Bernstein-to-Legendre entry (2, 2). */
  lemma ToLegendreFiveTerm_2_2_2(n: nat)
    requires n == 5
    ensures ToLegendreTerm(n, 2, 2, 2) == 1.0 / 35.0
  {
    BinomialsAbove2(n);
    ToLegendreTermValue(n, 2, 2, 2, 1.0, 1.0, 35.0, 1.0 / 35.0);
  }

  /** Bernstein-to-Legendre entry (2, 2): its terms summed and scaled. */
  lemma ToLegendreFive_2_2(n: nat)
    requires n == 5
    ensures ToLegendreMatrix(n)[2][2] == -5.0 / 21.0
  {
    BinomialsBelow0(n);
    ToLegendreFiveTerm_2_2_0(n);
    ToLegendreFiveTerm_2_2_1(n);
    ToLegendreFiveTerm_2_2_2(n);
    var f := k => ToLegendreTerm(n, 2, 2, k);
    assert Sum(0, 3, f) == f(0) + f(1) + f(2);
    assert Sum(0, 3, f) == -4.0 / 105.0;
  }

  /** Term 0 of the sum for Bernstein-to-Legendre entry (2, 3). */
  lemma ToLegendreFiveTerm_2_3_0(n: nat)
    requires n == 5
    ensures ToLegendreTerm(n, 2, 3, 0) == 1.0 / 35.0
  {
    BinomialsAbove2(n);
    ToLegendreTermValue(n, 2, 3, 0, 1.0, 1.0, 35.0, 1.0 / 35.0);
  }

  /** Term 1 of the sum for Bernstein-to-Legendre entry (2, 3). */
  lemma ToLegendreFiveTerm_2_3_1(n: nat)
    requires n == 5
    ensures ToLegendreTerm(n, 2, 3, 1) == -4.0 / 35.0
  {
    BinomialsAbove2(n);
    ToLegendreTermValue(n, 2, 3, 1, -1.0, 2.0, 35.0, -4.0 / 35.0);
  }

  /** Term 2 of the sum for Bernstein-to-Legendre entry (2, 3). */
  lemma ToLegendreFiveTerm_2_3_2(n: nat)
    requires n == 5
    ensures ToLegendreTerm(n, 2, 3, 2) == 1.0 / 21.0
  {
    BinomialsAbove2(n);
    ToLegendreTermValue(n, 2, 3, 2, 1.0, 1.0, 21.0, 1.0 / 21.0);
  }

  /** Bernstein-to-Legendre entry (2, 3): its terms summed and scaled. */
  lemma ToLegendreFive_2_3(n: nat)
    requires n == 5
    ensures ToLegendreMatrix(n)[2][3] == -5.0 / 21.0
  {
    BinomialsBelow0(n);
    ToLegendreFiveTerm_2_3_0(n);
    ToLegendreFiveTerm_2_3_1(n);
    ToLegendreFiveTerm_2_3_2(n);
    var f := k => ToLegendreTerm(n, 2, 3, k);
    assert Sum(0, 3, f) == f(0) + f(1) + f(2);
    assert Sum(0, 3, f) == -4.0 / 105.0;
  }

  /** Term 0 of the sum for Bernstein-to-Legendre entry (2, 4). */
  lemma ToLegendreFiveTerm_2_4_0(n: nat)
    requires n == 5
    ensures ToLegendreTerm(n, 2, 4, 0) == 1.0 / 35.0
  {
    BinomialsAbove2(n);
    ToLegendreTermValue(n, 2, 4, 0, 1.0, 1.0, 35.0, 1.0 / 35.0);
  }

  /** Term 1 of the sum for Bernstein-to-Legendre entry (2, 4). */
  lemma ToLegendreFiveTerm_2_4_1(n: nat)
    requires n == 5
    ensures ToLegendreTerm(n, 2, 4, 1) == -4.0 / 21.0
  {
    BinomialsAbove2(n);
    ToLegendreTermValue(n, 2, 4, 1, -1.0, 2.0, 21.0, -4.0 / 21.0);
  }

  /** Term 2 of the sum for Bernstein-to-Legendre entry (2, 4). */
  lemma ToLegendreFiveTerm_2_4_2(n: nat)
    requires n == 5
    ensures ToLegendreTerm(n, 2, 4, 2) == 1.0 / 7.0
  {
    BinomialsAbove2(n);
    ToLegendreTermValue(n, 2, 4, 2, 1.0, 1.0, 7.0, 1.0 / 7.0);
  }

  /** Bernstein-to-Legendre entry (2, 4): its terms summed and scaled. */
  lemma ToLegendreFive_2_4(n: nat)
    requires n == 5
    ensures ToLegendreMatrix(n)[2][4] == -5.0 / 84.0
  {
    BinomialsBelow0(n);
    ToLegendreFiveTerm_2_4_0(n);
    ToLegendreFiveTerm_2_4_1(n);
    ToLegendreFiveTerm_2_4_2(n);
    var f := k => ToLegendreTerm(n, 2, 4, k);
    assert Sum(0, 3, f) == f(0) + f(1) + f(2);
    assert Sum(0, 3, f) == -2.0 / 105.0;
  }

  /** Term 0 of the sum for Bernstein-to-Legendre entry (2, 5). */
  lemma ToLegendreFiveTerm_2_5_0(n: nat)
    requires n == 5
    ensures ToLegendreTerm(n, 2, 5, 0) == 1.0 / 21.0
  {
    BinomialsAbove2(n);
    ToLegendreTermValue(n, 2, 5, 0, 1.0, 1.0, 21.0, 1.0 / 21.0);
  }

  /** Term 1 of the sum for Bernstein-to-Legendre entry (2, 5). */
  lemma ToLegendreFiveTerm_2_5_1(n: nat)
    requires n == 5
    ensures ToLegendreTerm(n, 2, 5, 1) == -4.0 / 7.0
  {
    BinomialsAbove2(n);
    ToLegendreTermValue(n, 2, 5, 1, -1.0, 2.0, 7.0, -4.0 / 7.0);
  }

  /** Term 2 of the sum for Bernstein-to-Legendre entry (2, 5). */
  lemma ToLegendreFiveTerm_2_5_2(n: nat)
    requires n == 5
    ensures ToLegendreTerm(n, 2, 5, 2) == 1.0
  {
    BinomialsAbove2(n);
    ToLegendreTermValue(n, 2, 5, 2, 1.0, 1.0, 1.0, 1.0);
  }

  /** Bernstein-to-Legendre entry (2, 5): its terms summed and scaled. */
  lemma ToLegendreFive_2_5(n: nat)
    requires n == 5
    ensures ToLegendreMatrix(n)[2][5] == 25.0 / 84.0
  {
    BinomialsBelow0(n);
    ToLegendreFiveTerm_2_5_0(n);
    ToLegendreFiveTerm_2_5_1(n);
    ToLegendreFiveTerm_2_5_2(n);
    var f := k => ToLegendreTerm(n, 2, 5, k);
    assert Sum(0, 3, f) == f(0) + f(1) + f(2);
    assert Sum(0, 3, f) == 10.0 / 21.0;
  }

  /** Term 0 of the sum for Bernstein-to-Legendre entry (3, 0). */
  lemma ToLegendreFiveTerm_3_0_0(n: nat)
    requires n == 5
    ensures ToLegendreTerm(n, 3, 0, 0) == -1.0
  {
    BinomialsAbove3(n);
    ToLegendreTermValue(n, 3, 0, 0, -1.0, 1.0, 1.0, -1.0);
  }

  /** Term 1 of the sum for Bernstein-to-Legendre entry (3, 0). */
  lemma ToLegendreFiveTerm_3_0_1(n: nat)
    requires n == 5
    ensures ToLegendreTerm(n, 3, 0, 1) == 9.0 / 8.0
  {
    BinomialsAbove3(n);
    ToLegendreTermValue(n, 3, 0, 1, 1.0, 3.0, 8.0, 9.0 / 8.0);
  }

  /** Term 2 of the sum for Bernstein-to-Legendre entry (3, 0). */
  lemma ToLegendreFiveTerm_3_0_2(n: nat)
    requires n == 5
    ensures ToLegendreTerm(n, 3, 0, 2) == -9.0 / 28.0
  {
    BinomialsAbove3(n);
    ToLegendreTermValue(n, 3, 0, 2, -1.0, 3.0, 28.0, -9.0 / 28.0);
  }

  /** Term 3 of the sum for Bernstein-to-Legendre entry (3, 0). */
  lemma ToLegendreFiveTerm_3_0_3(n: nat)
    requires n == 5
    ensures ToLegendreTerm(n, 3, 0, 3) == 1.0 / 56.0
  {
    BinomialsAbove3(n);
    ToLegendreTermValue(n, 3, 0, 3, 1.0, 1.0, 56.0, 1.0 / 56.0);
  }

  /** Bernstein-to-Legendre entry (3, 0): its terms summed and scaled. */
  lemma ToLegendreFive_3_0(n: nat)
    requires n == 5
    ensures ToLegendreMatrix(n)[3][0] == -5.0 / 36.0
  {
    BinomialsBelow0(n);
    ToLegendreFiveTerm_3_0_0(n);
    ToLegendreFiveTerm_3_0_1(n);
    ToLegendreFiveTerm_3_0_2(n);
    ToLegendreFiveTerm_3_0_3(n);
    var f := k => ToLegendreTerm(n, 3, 0, k);
    assert Sum(0, 4, f) == f(0) + f(1) + f(2) + f(3);
    assert Sum(0, 4, f) == -5.0 / 28.0;
  }

  /** Term 0 of the sum for Bernstein-to-Legendre entry (3, 1). */
  lemma ToLegendreFiveTerm_3_1_0(n: nat)
    requires n == 5
    ensures ToLegendreTerm(n, 3, 1, 0) == -1.0 / 8.0
  {
    BinomialsAbove3(n);
    ToLegendreTermValue(n, 3, 1, 0, -1.0, 1.0, 8.0, -1.0 / 8.0);
  }

  /** Term 1 of the sum for Bernstein-to-Legendre entry (3, 1). */
  lemma ToLegendreFiveTerm_3_1_1(n: nat)
    requires n == 5
    ensures ToLegendreTerm(n, 3, 1, 1) == 9.0 / 28.0
  {
    BinomialsAbove3(n);
    ToLegendreTermValue(n, 3, 1, 1, 1.0, 3.0, 28.0, 9.0 / 28.0);
  }

  /** Term 2 of the sum for Bernstein-to-Legendre entry (3, 1). */
  lemma ToLegendreFiveTerm_3_1_2(n: nat)
    requires n == 5
    ensures ToLegendreTerm(n, 3, 1, 2) == -9.0 / 56.0
  {
    BinomialsAbove3(n);
    ToLegendreTermValue(n, 3, 1, 2, -1.0, 3.0, 56.0, -9.0 / 56.0);
  }

  /** Term 3 of the sum for Bernstein-to-Legendre entry (3, 1). */
  lemma ToLegendreFiveTerm_3_1_3(n: nat)
    requires n == 5
    ensures ToLegendreTerm(n, 3, 1, 3) == 1.0 / 70.0
  {
    BinomialsAbove3(n);
    ToLegendreTermValue(n, 3, 1, 3, 1.0, 1.0, 70.0, 1.0 / 70.0);
  }

  /** Bernstein-to-Legendre entry (3, 1): its terms summed and scaled. */
  lemma ToLegendreFive_3_1(n: nat)
    requires n == 5
    ensures ToLegendreMatrix(n)[3][1] == 7.0 / 36.0
  {
    BinomialsBelow0(n);
    ToLegendreFiveTerm_3_1_0(n);
    ToLegendreFiveTerm_3_1_1(n);
    ToLegendreFiveTerm_3_1_2(n);
    ToLegendreFiveTerm_3_1_3(n);
    var f := k => ToLegendreTerm(n, 3, 1, k);
    assert Sum(0, 4, f) == f(0) + f(1) + f(2) + f(3);
    assert Sum(0, 4, f) == 1.0 / 20.0;
  }

  /** Term 0 of the sum for Bernstein-to-Legendre entry (3, 2). */
  lemma ToLegendreFiveTerm_3_2_0(n: nat)
    requires n == 5
    ensures ToLegendreTerm(n, 3, 2, 0) == -1.0 / 28.0
  {
    BinomialsAbove3(n);
    ToLegendreTermValue(n, 3, 2, 0, -1.0, 1.0, 28.0, -1.0 / 28.0);
  }

  /** Term 1 of the sum for Bernstein-to-Legendre entry (3, 2). */
  lemma ToLegendreFiveTerm_3_2_1(n: nat)
    requires n == 5
    ensures ToLegendreTerm(n, 3, 2, 1) == 9.0 / 56.0
  {
    BinomialsAbove3(n);
    ToLegendreTermValue(n, 3, 2, 1, 1.0, 3.0, 56.0, 9.0 / 56.0);
  }

  /** Term 2 of the sum for Bernstein-to-Legendre entry (3, 2). */
  lemma ToLegendreFiveTerm_3_2_2(n: nat)
    requires n == 5
    ensures ToLegendreTerm(n, 3, 2, 2) == -9.0 / 70.0
  {
    BinomialsAbove3(n);
    ToLegendreTermValue(n, 3, 2, 2, -1.0, 3.0, 70.0, -9.0 / 70.0);
  }

  /** Term 3 of the sum for Bernstein-to-Legendre entry (3, 2). */
  lemma ToLegendreFiveTerm_3_2_3(n: nat)
    requires n == 5
    ensures ToLegendreTerm(n, 3, 2, 3) == 1.0 / 56.0
  {
    BinomialsAbove3(n);
    ToLegendreTermValue(n, 3, 2, 3, 1.0, 1.0, 56.0, 1.0 / 56.0);
  }

  /** Bernstein-to-Legendre entry (3, 2): its terms summed and scaled. */
  lemma ToLegendreFive_3_2(n: nat)
    requires n == 5
    ensures ToLegendreMatrix(n)[3][2] == 1.0 / 9.0
  {
    BinomialsBelow0(n);
    ToLegendreFiveTerm_3_2_0(n);
    ToLegendreFiveTerm_3_2_1(n);
    ToLegendreFiveTerm_3_2_2(n);
    ToLegendreFiveTerm_3_2_3(n);
    var f := k => ToLegendreTerm(n, 3, 2, k);
    assert Sum(0, 4, f) == f(0) + f(1) + f(2) + f(3);
    assert Sum(0, 4, f) == 1.0 / 70.0;
  }

  /** Term 0 of the sum for Bernstein-to-Legendre entry (3, 3). */
  lemma ToLegendreFiveTerm_3_3_0(n: nat)
    requires n == 5
    ensures ToLegendreTerm(n, 3, 3, 0) == -1.0 / 56.0
  {
    BinomialsAbove3(n);
    ToLegendreTermValue(n, 3, 3, 0, -1.0, 1.0, 56.0, -1.0 / 56.0);
  }

  /** Term 1 of the sum for Bernstein-to-Legendre entry (3, 3). */
  lemma ToLegendreFiveTerm_3_3_1(n: nat)
    requires n == 5
    ensures ToLegendreTerm(n, 3, 3, 1) == 9.0 / 70.0
  {
    BinomialsAbove3(n);
    ToLegendreTermValue(n, 3, 3, 1, 1.0, 3.0, 70.0, 9.0 / 70.0);
  }

  /** Term 2 of the sum for Bernstein-to-Legendre entry (3, 3). */
  lemma ToLegendreFiveTerm_3_3_2(n: nat)
    requires n == 5
    ensures ToLegendreTerm(n, 3, 3, 2) == -9.0 / 56.0
  {
    BinomialsAbove3(n);
    ToLegendreTermValue(n, 3, 3, 2, -1.0, 3.0, 56.0, -9.0 / 56.0);
  }

  /** Term 3 of the sum for Bernstein-to-Legendre entry (3, 3). */
  lemma ToLegendreFiveTerm_3_3_3(n: nat)
    requires n == 5
    ensures ToLegendreTerm(n, 3, 3, 3) == 1.0 / 28.0
  {
    BinomialsAbove3(n);
    ToLegendreTermValue(n, 3, 3, 3, 1.0, 1.0, 28.0, 1.0 / 28.0);
  }

  /** Bernstein-to-Legendre entry (3, 3): its terms summed and scaled. */
  lemma ToLegendreFive_3_3(n: nat)
    requires n == 5
    ensures ToLegendreMatrix(n)[3][3] == -1.0 / 9.0
  {
    BinomialsBelow0(n);
    ToLegendreFiveTerm_3_3_0(n);
    ToLegendreFiveTerm_3_3_1(n);
    ToLegendreFiveTerm_3_3_2(n);
    ToLegendreFiveTerm_3_3_3(n);
    var f := k => ToLegendreTerm(n, 3, 3, k);
    assert Sum(0, 4, f) == f(0) + f(1) + f(2) + f(3);
    assert Sum(0, 4, f) == -1.0 / 70.0;
  }

  /** Term 0 of the sum for Bernstein-to-Legendre entry (3, 4). */
  lemma ToLegendreFiveTerm_3_4_0(n: nat)
    requires n == 5
    ensures ToLegendreTerm(n, 3, 4, 0) == -1.0 / 70.0
  {
    BinomialsAbove3(n);
    ToLegendreTermValue(n, 3, 4, 0, -1.0, 1.0, 70.0, -1.0 / 70.0);
  }

  /** Term 1 of the sum for Bernstein-to-Legendre entry (3, 4). */
  lemma ToLegendreFiveTerm_3_4_1(n: nat)
    requires n == 5
    ensures ToLegendreTerm(n, 3, 4, 1) == 9.0 / 56.0
  {
    BinomialsAbove3(n);
    ToLegendreTermValue(n, 3, 4, 1, 1.0, 3.0, 56.0, 9.0 / 56.0);
  }

  /** Term 2 of the sum for Bernstein-to-Legendre entry (3, 4). */
  lemma ToLegendreFiveTerm_3_4_2(n: nat)
    requires n == 5
    ensures ToLegendreTerm(n, 3, 4, 2) == -9.0 / 28.0
  {
    BinomialsAbove3(n);
    ToLegendreTermValue(n, 3, 4, 2, -1.0, 3.0, 28.0, -9.0 / 28.0);
  }

  /** Term 3 of the sum for Bernstein-to-Legendre entry (3, 4). */
  lemma ToLegendreFiveTerm_3_4_3(n: nat)
    requires n == 5
    ensures ToLegendreTerm(n, 3, 4, 3) == 1.0 / 8.0
  {
    BinomialsAbove3(n);
    ToLegendreTermValue(n, 3, 4, 3, 1.0, 1.0, 8.0, 1.0 / 8.0);
  }

  /** Bernstein-to-Legendre entry (3, 4): its terms summed and scaled. */
  lemma ToLegendreFive_3_4(n: nat)
    requires n == 5
    ensures ToLegendreMatrix(n)[3][4] == -7.0 / 36.0
  {
    BinomialsBelow0(n);
    ToLegendreFiveTerm_3_4_0(n);
    ToLegendreFiveTerm_3_4_1(n);
    ToLegendreFiveTerm_3_4_2(n);
    ToLegendreFiveTerm_3_4_3(n);
    var f := k => ToLegendreTerm(n, 3, 4, k);
    assert Sum(0, 4, f) == f(0) + f(1) + f(2) + f(3);
    assert Sum(0, 4, f) == -1.0 / 20.0;
  }

  /** Term 0 of the sum for Bernstein-to-Legendre entry (3, 5). */
  lemma ToLegendreFiveTerm_3_5_0(n: nat)
    requires n == 5
    ensures ToLegendreTerm(n, 3, 5, 0) == -1.0 / 56.0
  {
    BinomialsAbove3(n);
    ToLegendreTermValue(n, 3, 5, 0, -1.0, 1.0, 56.0, -1.0 / 56.0);
  }

  /** Term 1 of the sum for Bernstein-to-Legendre entry (3, 5). */
  lemma ToLegendreFiveTerm_3_5_1(n: nat)
    requires n == 5
    ensures ToLegendreTerm(n, 3, 5, 1) == 9.0 / 28.0
  {
    BinomialsAbove3(n);
    ToLegendreTermValue(n, 3, 5, 1, 1.0, 3.0, 28.0, 9.0 / 28.0);
  }

  /** Term 2 of the sum for Bernstein-to-Legendre entry (3, 5). */
  lemma ToLegendreFiveTerm_3_5_2(n: nat)
    requires n == 5
    ensures ToLegendreTerm(n, 3, 5, 2) == -9.0 / 8.0
  {
    BinomialsAbove3(n);
    ToLegendreTermValue(n, 3, 5, 2, -1.0, 3.0, 8.0, -9.0 / 8.0);
  }

  /** Term 3 of the sum for Bernstein-to-Legendre entry (3, 5). */
  lemma ToLegendreFiveTerm_3_5_3(n: nat)
    requires n == 5
    ensures ToLegendreTerm(n, 3, 5, 3) == 1.0
  {
    BinomialsAbove3(n);
    ToLegendreTermValue(n, 3, 5, 3, 1.0, 1.0, 1.0, 1.0);
  }

  /** Bernstein-to-Legendre entry (3, 5): its terms summed and scaled. */
  lemma ToLegendreFive_3_5(n: nat)
    requires n == 5
    ensures ToLegendreMatrix(n)[3][5] == 5.0 / 36.0
  {
    BinomialsBelow0(n);
    ToLegendreFiveTerm_3_5_0(n);
    ToLegendreFiveTerm_3_5_1(n);
    ToLegendreFiveTerm_3_5_2(n);
    ToLegendreFiveTerm_3_5_3(n);
    var f := k => ToLegendreTerm(n, 3, 5, k);
    assert Sum(0, 4, f) == f(0) + f(1) + f(2) + f(3);
    assert Sum(0, 4, f) == 5.0 / 28.0;
  }

  /** Term 0 of the sum for Bernstein-to-Legendre entry (4, 0). */
  lemma ToLegendreFiveTerm_4_0_0(n: nat)
    requires n == 5
    ensures ToLegendreTerm(n, 4, 0, 0) == 1.0
  {
    BinomialsAbove4(n);
    ToLegendreTermValue(n, 4, 0, 0, 1.0, 1.0, 1.0, 1.0);
  }

  /** Term 1 of the sum for Bernstein-to-Legendre entry (4, 0). */
  lemma ToLegendreFiveTerm_4_0_1(n: nat)
    requires n == 5
    ensures ToLegendreTerm(n, 4, 0, 1) == -16.0 / 9.0
  {
    BinomialsAbove4(n);
    ToLegendreTermValue(n, 4, 0, 1, -1.0, 4.0, 9.0, -16.0 / 9.0);
  }

  /** Term 2 of the sum for Bernstein-to-Legendre entry (4, 0). */
  lemma ToLegendreFiveTerm_4_0_2(n: nat)
    requires n == 5
    ensures ToLegendreTerm(n, 4, 0, 2) == 1.0
  {
    BinomialsAbove4(n);
    ToLegendreTermValue(n, 4, 0, 2, 1.0, 6.0, 36.0, 1.0);
  }

  /** Term 3 of the sum for Bernstein-to-Legendre entry (4, 0). */
  lemma ToLegendreFiveTerm_4_0_3(n: nat)
    requires n == 5
    ensures ToLegendreTerm(n, 4, 0, 3) == -4.0 / 21.0
  {
    BinomialsAbove4(n);
    ToLegendreTermValue(n, 4, 0, 3, -1.0, 4.0, 84.0, -4.0 / 21.0);
  }

  /** Term 4 of the sum for Bernstein-to-Legendre entry (4, 0). */
  lemma ToLegendreFiveTerm_4_0_4(n: nat)
    requires n == 5
    ensures ToLegendreTerm(n, 4, 0, 4) == 1.0 / 126.0
  {
    BinomialsAbove4(n);
    ToLegendreTermValue(n, 4, 0, 4, 1.0, 1.0, 126.0, 1.0 / 126.0);
  }

  /** Bernstein-to-Legendre entry (4, 0): its terms summed and scaled. */
  lemma ToLegendreFive_4_0(n: nat)
    requires n == 5
    ensures ToLegendreMatrix(n)[4][0] == 1.0 / 28.0
  {
    BinomialsBelow0(n);
    ToLegendreFiveTerm_4_0_0(n);
    ToLegendreFiveTerm_4_0_1(n);
    ToLegendreFiveTerm_4_0_2(n);
    ToLegendreFiveTerm_4_0_3(n);
    ToLegendreFiveTerm_4_0_4(n);
    var f := k => ToLegendreTerm(n, 4, 0, k);
    assert Sum(0, 5, f) == f(0) + f(1) + f(2) + f(3) + f(4);
    assert Sum(0, 5, f) == 5.0 / 126.0;
  }

  /** Term 0 of the sum for Bernstein-to-Legendre entry (4, 1). */
  lemma ToLegendreFiveTerm_4_1_0(n: nat)
    requires n == 5
    ensures ToLegendreTerm(n, 4, 1, 0) == 1.0 / 9.0
  {
    BinomialsAbove4(n);
    ToLegendreTermValue(n, 4, 1, 0, 1.0, 1.0, 9.0, 1.0 / 9.0);
  }

  /** Term 1 of the sum for Bernstein-to-Legendre entry (4, 1). */
  lemma ToLegendreFiveTerm_4_1_1(n: nat)
    requires n == 5
    ensures ToLegendreTerm(n, 4, 1, 1) == -4.0 / 9.0
  {
    BinomialsAbove4(n);
    ToLegendreTermValue(n, 4, 1, 1, -1.0, 4.0, 36.0, -4.0 / 9.0);
  }

  /** Term 2 of the sum for Bernstein-to-Legendre entry (4, 1). */
  lemma ToLegendreFiveTerm_4_1_2(n: nat)
    requires n == 5
    ensures ToLegendreTerm(n, 4, 1, 2) == 3.0 / 7.0
  {
    BinomialsAbove4(n);
    ToLegendreTermValue(n, 4, 1, 2, 1.0, 6.0, 84.0, 3.0 / 7.0);
  }

  /** Term 3 of the sum for Bernstein-to-Legendre entry (4, 1). */
  lemma ToLegendreFiveTerm_4_1_3(n: nat)
    requires n == 5
    ensures ToLegendreTerm(n, 4, 1, 3) == -8.0 / 63.0
  {
    BinomialsAbove4(n);
    ToLegendreTermValue(n, 4, 1, 3, -1.0, 4.0, 126.0, -8.0 / 63.0);
  }

  /** Term 4 of the sum for Bernstein-to-Legendre entry (4, 1). */
  lemma ToLegendreFiveTerm_4_1_4(n: nat)
    requires n == 5
    ensures ToLegendreTerm(n, 4, 1, 4) == 1.0 / 126.0
  {
    BinomialsAbove4(n);
    ToLegendreTermValue(n, 4, 1, 4, 1.0, 1.0, 126.0, 1.0 / 126.0);
  }

  /** Bernstein-to-Legendre entry (4, 1): its terms summed and scaled. */
  lemma ToLegendreFive_4_1(n: nat)
    requires n == 5
    ensures ToLegendreMatrix(n)[4][1] == -3.0 / 28.0
  {
    BinomialsBelow0(n);
    ToLegendreFiveTerm_4_1_0(n);
    ToLegendreFiveTerm_4_1_1(n);
    ToLegendreFiveTerm_4_1_2(n);
    ToLegendreFiveTerm_4_1_3(n);
    ToLegendreFiveTerm_4_1_4(n);
    var f := k => ToLegendreTerm(n, 4, 1, k);
    assert Sum(0, 5, f) == f(0) + f(1) + f(2) + f(3) + f(4);
    assert Sum(0, 5, f) == -1.0 / 42.0;
  }

  /** Term 0 of the sum for Bernstein-to-Legendre entry (4, 2). */
  lemma ToLegendreFiveTerm_4_2_0(n: nat)
    requires n == 5
    ensures ToLegendreTerm(n, 4, 2, 0) == 1.0 / 36.0
  {
    BinomialsAbove4(n);
    ToLegendreTermValue(n, 4, 2, 0, 1.0, 1.0, 36.0, 1.0 / 36.0);
  }

  /** Term 1 of the sum for Bernstein-to-Legendre entry (4, 2). */
  lemma ToLegendreFiveTerm_4_2_1(n: nat)
    requires n == 5
    ensures ToLegendreTerm(n, 4, 2, 1) == -4.0 / 21.0
  {
    BinomialsAbove4(n);
    ToLegendreTermValue(n, 4, 2, 1, -1.0, 4.0, 84.0, -4.0 / 21.0);
  }

  /** Term 2 of the sum for Bernstein-to-Legendre entry (4, 2). */
  lemma ToLegendreFiveTerm_4_2_2(n: nat)
    requires n == 5
    ensures ToLegendreTerm(n, 4, 2, 2) == 2.0 / 7.0
  {
    BinomialsAbove4(n);
    ToLegendreTermValue(n, 4, 2, 2, 1.0, 6.0, 126.0, 2.0 / 7.0);
  }

  /** Term 3 of the sum for Bernstein-to-Legendre entry (4, 2). */
  lemma ToLegendreFiveTerm_4_2_3(n: nat)
    requires n == 5
    ensures ToLegendreTerm(n, 4, 2, 3) == -8.0 / 63.0
  {
    BinomialsAbove4(n);
    ToLegendreTermValue(n, 4, 2, 3, -1.0, 4.0, 126.0, -8.0 / 63.0);
  }

  /** Term 4 of the sum for Bernstein-to-Legendre entry (4, 2). */
  lemma ToLegendreFiveTerm_4_2_4(n: nat)
    requires n == 5
    ensures ToLegendreTerm(n, 4, 2, 4) == 1.0 / 84.0
  {
    BinomialsAbove4(n);
    ToLegendreTermValue(n, 4, 2, 4, 1.0, 1.0, 84.0, 1.0 / 84.0);
  }

  /** Bernstein-to-Legendre entry (4, 2): its terms summed and scaled. */
  lemma ToLegendreFive_4_2(n: nat)
    requires n == 5
    ensures ToLegendreMatrix(n)[4][2] == 1.0 / 14.0
  {
    BinomialsBelow0(n);
    ToLegendreFiveTerm_4_2_0(n);
    ToLegendreFiveTerm_4_2_1(n);
    ToLegendreFiveTerm_4_2_2(n);
    ToLegendreFiveTerm_4_2_3(n);
    ToLegendreFiveTerm_4_2_4(n);
    var f := k => ToLegendreTerm(n, 4, 2, k);
    assert Sum(0, 5, f) == f(0) + f(1) + f(2) + f(3) + f(4);
    assert Sum(0, 5, f) == 1.0 / 126.0;
  }

  /** Term 0 of the sum for Bernstein-to-Legendre entry (4, 3). */
  lemma ToLegendreFiveTerm_4_3_0(n: nat)
    requires n == 5
    ensures ToLegendreTerm(n, 4, 3, 0) == 1.0 / 84.0
  {
    BinomialsAbove4(n);
    ToLegendreTermValue(n, 4, 3, 0, 1.0, 1.0, 84.0, 1.0 / 84.0);
  }

  /** Term 1 of the sum for Bernstein-to-Legendre entry (4, 3). */
  lemma ToLegendreFiveTerm_4_3_1(n: nat)
    requires n == 5
    ensures ToLegendreTerm(n, 4, 3, 1) == -8.0 / 63.0
  {
    BinomialsAbove4(n);
    ToLegendreTermValue(n, 4, 3, 1, -1.0, 4.0, 126.0, -8.0 / 63.0);
  }

  /** Term 2 of the sum for Bernstein-to-Legendre entry (4, 3). */
  lemma ToLegendreFiveTerm_4_3_2(n: nat)
    requires n == 5
    ensures ToLegendreTerm(n, 4, 3, 2) == 2.0 / 7.0
  {
    BinomialsAbove4(n);
    ToLegendreTermValue(n, 4, 3, 2, 1.0, 6.0, 126.0, 2.0 / 7.0);
  }

  /** Term 3 of the sum for Bernstein-to-Legendre entry (4, 3). */
  lemma ToLegendreFiveTerm_4_3_3(n: nat)
    requires n == 5
    ensures ToLegendreTerm(n, 4, 3, 3) == -4.0 / 21.0
  {
    BinomialsAbove4(n);
    ToLegendreTermValue(n, 4, 3, 3, -1.0, 4.0, 84.0, -4.0 / 21.0);
  }

  /** Term 4 of the sum for Bernstein-to-Legendre entry (4, 3). */
  lemma ToLegendreFiveTerm_4_3_4(n: nat)
    requires n == 5
    ensures ToLegendreTerm(n, 4, 3, 4) == 1.0 / 36.0
  {
    BinomialsAbove4(n);
    ToLegendreTermValue(n, 4, 3, 4, 1.0, 1.0, 36.0, 1.0 / 36.0);
  }

  /** Bernstein-to-Legendre entry (4, 3): its terms summed and scaled. */
  lemma ToLegendreFive_4_3(n: nat)
    requires n == 5
    ensures ToLegendreMatrix(n)[4][3] == 1.0 / 14.0
  {
    BinomialsBelow0(n);
    ToLegendreFiveTerm_4_3_0(n);
    ToLegendreFiveTerm_4_3_1(n);
    ToLegendreFiveTerm_4_3_2(n);
    ToLegendreFiveTerm_4_3_3(n);
    ToLegendreFiveTerm_4_3_4(n);
    var f := k => ToLegendreTerm(n, 4, 3, k);
    assert Sum(0, 5, f) == f(0) + f(1) + f(2) + f(3) + f(4);
    assert Sum(0, 5, f) == 1.0 / 126.0;
  }

  /** Term 0 of the sum for Bernstein-to-Legendre entry (4, 4). */
  lemma ToLegendreFiveTerm_4_4_0(n: nat)
    requires n == 5
    ensures ToLegendreTerm(n, 4, 4, 0) == 1.0 / 126.0
  {
    BinomialsAbove4(n);
    ToLegendreTermValue(n, 4, 4, 0, 1.0, 1.0, 126.0, 1.0 / 126.0);
  }

  /** Term 1 of the sum for Bernstein-to-Legendre entry (4, 4). */
  lemma ToLegendreFiveTerm_4_4_1(n: nat)
    requires n == 5
    ensures ToLegendreTerm(n, 4, 4, 1) == -8.0 / 63.0
  {
    BinomialsAbove4(n);
    ToLegendreTermValue(n, 4, 4, 1, -1.0, 4.0, 126.0, -8.0 / 63.0);
  }

  /** Term 2 of the sum for Bernstein-to-Legendre entry (4, 4). */
  lemma ToLegendreFiveTerm_4_4_2(n: nat)
    requires n == 5
    ensures ToLegendreTerm(n, 4, 4, 2) == 3.0 / 7.0
  {
    BinomialsAbove4(n);
    ToLegendreTermValue(n, 4, 4, 2, 1.0, 6.0, 84.0, 3.0 / 7.0);
  }

  /** Term 3 of the sum for Bernstein-to-Legendre entry (4, 4). */
  lemma ToLegendreFiveTerm_4_4_3(n: nat)
    requires n == 5
    ensures ToLegendreTerm(n, 4, 4, 3) == -4.0 / 9.0
  {
    BinomialsAbove4(n);
    ToLegendreTermValue(n, 4, 4, 3, -1.0, 4.0, 36.0, -4.0 / 9.0);
  }

  /** Term 4 of the sum for Bernstein-to-Legendre entry (4, 4). */
  lemma ToLegendreFiveTerm_4_4_4(n: nat)
    requires n == 5
    ensures ToLegendreTerm(n, 4, 4, 4) == 1.0 / 9.0
  {
    BinomialsAbove4(n);
    ToLegendreTermValue(n, 4, 4, 4, 1.0, 1.0, 9.0, 1.0 / 9.0);
  }

  /** Bernstein-to-Legendre entry (4, 4): its terms summed and scaled. */
  lemma ToLegendreFive_4_4(n: nat)
    requires n == 5
    ensures ToLegendreMatrix(n)[4][4] == -3.0 / 28.0
  {
    BinomialsBelow0(n);
    ToLegendreFiveTerm_4_4_0(n);
    ToLegendreFiveTerm_4_4_1(n);
    ToLegendreFiveTerm_4_4_2(n);
    ToLegendreFiveTerm_4_4_3(n);
    ToLegendreFiveTerm_4_4_4(n);
    var f := k => ToLegendreTerm(n, 4, 4, k);
    assert Sum(0, 5, f) == f(0) + f(1) + f(2) + f(3) + f(4);
    assert Sum(0, 5, f) == -1.0 / 42.0;
  }

  /** Term 0 of the sum for Bernstein-to-Legendre entry (4, 5). */
  lemma ToLegendreFiveTerm_4_5_0(n: nat)
    requires n == 5
    ensures ToLegendreTerm(n, 4, 5, 0) == 1.0 / 126.0
  {
    BinomialsAbove4(n);
    ToLegendreTermValue(n, 4, 5, 0, 1.0, 1.0, 126.0, 1.0 / 126.0);
  }

  /** Term 1 of the sum for Bernstein-to-Legendre entry (4, 5). */
  lemma ToLegendreFiveTerm_4_5_1(n: nat)
    requires n == 5
    ensures ToLegendreTerm(n, 4, 5, 1) == -4.0 / 21.0
  {
    BinomialsAbove4(n);
    ToLegendreTermValue(n, 4, 5, 1, -1.0, 4.0, 84.0, -4.0 / 21.0);
  }

  /** Term 2 of the sum for Bernstein-to-Legendre entry (4, 5). */
  lemma ToLegendreFiveTerm_4_5_2(n: nat)
    requires n == 5
    ensures ToLegendreTerm(n, 4, 5, 2) == 1.0
  {
    BinomialsAbove4(n);
    ToLegendreTermValue(n, 4, 5, 2, 1.0, 6.0, 36.0, 1.0);
  }

  /** Term 3 of the sum for Bernstein-to-Legendre entry (4, 5). */
  lemma ToLegendreFiveTerm_4_5_3(n: nat)
    requires n == 5
    ensures ToLegendreTerm(n, 4, 5, 3) == -16.0 / 9.0
  {
    BinomialsAbove4(n);
    ToLegendreTermValue(n, 4, 5, 3, -1.0, 4.0, 9.0, -16.0 / 9.0);
  }

  /** Term 4 of the sum for Bernstein-to-Legendre entry (4, 5). */
  lemma ToLegendreFiveTerm_4_5_4(n: nat)
    requires n == 5
    ensures ToLegendreTerm(n, 4, 5, 4) == 1.0
  {
    BinomialsAbove4(n);
    ToLegendreTermValue(n, 4, 5, 4, 1.0, 1.0, 1.0, 1.0);
  }

  /** Bernstein-to-Legendre entry (4, 5): its terms summed and scaled. */
  lemma ToLegendreFive_4_5(n: nat)
    requires n == 5
    ensures ToLegendreMatrix(n)[4][5] == 1.0 / 28.0
  {
    BinomialsBelow0(n);
    ToLegendreFiveTerm_4_5_0(n);
    ToLegendreFiveTerm_4_5_1(n);
    ToLegendreFiveTerm_4_5_2(n);
    ToLegendreFiveTerm_4_5_3(n);
    ToLegendreFiveTerm_4_5_4(n);
    var f := k => ToLegendreTerm(n, 4, 5, k);
    assert Sum(0, 5, f) == f(0) + f(1) + f(2) + f(3) + f(4);
    assert Sum(0, 5, f) == 5.0 / 126.0;
  }

  /** Term 0 of the sum for Bernstein-to-Legendre entry (5, 0). */
  lemma ToLegendreFiveTerm_5_0_0(n: nat)
    requires n == 5
    ensures ToLegendreTerm(n, 5, 0, 0) == -1.0
  {
    BinomialsAbove5(n);
    ToLegendreTermValue(n, 5, 0, 0, -1.0, 1.0, 1.0, -1.0);
  }

  /** Term 1 of the sum for Bernstein-to-Legendre entry (5, 0). */
  lemma ToLegendreFiveTerm_5_0_1(n: nat)
    requires n == 5
    ensures ToLegendreTerm(n, 5, 0, 1) == 5.0 / 2.0
  {
    BinomialsAbove5(n);
    ToLegendreTermValue(n, 5, 0, 1, 1.0, 5.0, 10.0, 5.0 / 2.0);
  }

  /** Term 2 of the sum for Bernstein-to-Legendre entry (5, 0). */
  lemma ToLegendreFiveTerm_5_0_2(n: nat)
    requires n == 5
    ensures ToLegendreTerm(n, 5, 0, 2) == -20.0 / 9.0
  {
    BinomialsAbove5(n);
    ToLegendreTermValue(n, 5, 0, 2, -1.0, 10.0, 45.0, -20.0 / 9.0);
  }

  /** Term 3 of the sum for Bernstein-to-Legendre entry (5, 0). */
  lemma ToLegendreFiveTerm_5_0_3(n: nat)
    requires n == 5
    ensures ToLegendreTerm(n, 5, 0, 3) == 5.0 / 6.0
  {
    BinomialsAbove5(n);
    ToLegendreTermValue(n, 5, 0, 3, 1.0, 10.0, 120.0, 5.0 / 6.0);
  }

  /** Term 4 of the sum for Bernstein-to-Legendre entry (5, 0). */
  lemma ToLegendreFiveTerm_5_0_4(n: nat)
    requires n == 5
    ensures ToLegendreTerm(n, 5, 0, 4) == -5.0 / 42.0
  {
    BinomialsAbove5(n);
    ToLegendreTermValue(n, 5, 0, 4, -1.0, 5.0, 210.0, -5.0 / 42.0);
  }

  /** Term 5 of the sum for Bernstein-to-Legendre entry (5, 0). */
  lemma ToLegendreFiveTerm_5_0_5(n: nat)
    requires n == 5
    ensures ToLegendreTerm(n, 5, 0, 5) == 1.0 / 252.0
  {
    BinomialsAbove5(n);
    ToLegendreTermValue(n, 5, 0, 5, 1.0, 1.0, 252.0, 1.0 / 252.0);
  }

  /** Bernstein-to-Legendre entry (5, 0): its terms summed and scaled. */
  lemma ToLegendreFive_5_0(n: nat)
    requires n == 5
    ensures ToLegendreMatrix(n)[5][0] == -1.0 / 252.0
  {
    BinomialsBelow0(n);
    ToLegendreFiveTerm_5_0_0(n);
    ToLegendreFiveTerm_5_0_1(n);
    ToLegendreFiveTerm_5_0_2(n);
    ToLegendreFiveTerm_5_0_3(n);
    ToLegendreFiveTerm_5_0_4(n);
    ToLegendreFiveTerm_5_0_5(n);
    var f := k => ToLegendreTerm(n, 5, 0, k);
    assert Sum(0, 6, f) == f(0) + f(1) + f(2) + f(3) + f(4) + f(5);
    assert Sum(0, 6, f) == -1.0 / 252.0;
  }

  /** Term 0 of the sum for Bernstein-to-Legendre entry (5, 1). */
  lemma ToLegendreFiveTerm_5_1_0(n: nat)
    requires n == 5
    ensures ToLegendreTerm(n, 5, 1, 0) == -1.0 / 10.0
  {
    BinomialsAbove5(n);
    ToLegendreTermValue(n, 5, 1, 0, -1.0, 1.0, 10.0, -1.0 / 10.0);
  }

  /** Term 1 of the sum for Bernstein-to-Legendre entry (5, 1). */
  lemma ToLegendreFiveTerm_5_1_1(n: nat)
    requires n == 5
    ensures ToLegendreTerm(n, 5, 1, 1) == 5.0 / 9.0
  {
    BinomialsAbove5(n);
    ToLegendreTermValue(n, 5, 1, 1, 1.0, 5.0, 45.0, 5.0 / 9.0);
  }

  /** Term 2 of the sum for Bernstein-to-Legendre entry (5, 1). */
  lemma ToLegendreFiveTerm_5_1_2(n: nat)
    requires n == 5
    ensures ToLegendreTerm(n, 5, 1, 2) == -5.0 / 6.0
  {
    BinomialsAbove5(n);
    ToLegendreTermValue(n, 5, 1, 2, -1.0, 10.0, 120.0, -5.0 / 6.0);
  }

  /** Term 3 of the sum for Bernstein-to-Legendre entry (5, 1). */
  lemma ToLegendreFiveTerm_5_1_3(n: nat)
    requires n == 5
    ensures ToLegendreTerm(n, 5, 1, 3) == 10.0 / 21.0
  {
    BinomialsAbove5(n);
    ToLegendreTermValue(n, 5, 1, 3, 1.0, 10.0, 210.0, 10.0 / 21.0);
  }

  /** Term 4 of the sum for Bernstein-to-Legendre entry (5, 1). */
  lemma ToLegendreFiveTerm_5_1_4(n: nat)
    requires n == 5
    ensures ToLegendreTerm(n, 5, 1, 4) == -25.0 / 252.0
  {
    BinomialsAbove5(n);
    ToLegendreTermValue(n, 5, 1, 4, -1.0, 5.0, 252.0, -25.0 / 252.0);
  }

  /** Term 5 of the sum for Bernstein-to-Legendre entry (5, 1). */
  lemma ToLegendreFiveTerm_5_1_5(n: nat)
    requires n == 5
    ensures ToLegendreTerm(n, 5, 1, 5) == 1.0 / 210.0
  {
    BinomialsAbove5(n);
    ToLegendreTermValue(n, 5, 1, 5, 1.0, 1.0, 210.0, 1.0 / 210.0);
  }

  /** Bernstein-to-Legendre entry (5, 1): its terms summed and scaled. */
  lemma ToLegendreFive_5_1(n: nat)
    requires n == 5
    ensures ToLegendreMatrix(n)[5][1] == 5.0 / 252.0
  {
    BinomialsBelow0(n);
    ToLegendreFiveTerm_5_1_0(n);
    ToLegendreFiveTerm_5_1_1(n);
    ToLegendreFiveTerm_5_1_2(n);
    ToLegendreFiveTerm_5_1_3(n);
    ToLegendreFiveTerm_5_1_4(n);
    ToLegendreFiveTerm_5_1_5(n);
    var f := k => ToLegendreTerm(n, 5, 1, k);
    assert Sum(0, 6, f) == f(0) + f(1) + f(2) + f(3) + f(4) + f(5);
    assert Sum(0, 6, f) == 1.0 / 252.0;
  }

  /** Term 0 of the sum for Bernstein-to-Legendre entry (5, 2). */
  lemma ToLegendreFiveTerm_5_2_0(n: nat)
    requires n == 5
    ensures ToLegendreTerm(n, 5, 2, 0) == -1.0 / 45.0
  {
    BinomialsAbove5(n);
    ToLegendreTermValue(n, 5, 2, 0, -1.0, 1.0, 45.0, -1.0 / 45.0);
  }

  /** Term 1 of the sum for Bernstein-to-Legendre entry (5, 2). */
  lemma ToLegendreFiveTerm_5_2_1(n: nat)
    requires n == 5
    ensures ToLegendreTerm(n, 5, 2, 1) == 5.0 / 24.0
  {
    BinomialsAbove5(n);
    ToLegendreTermValue(n, 5, 2, 1, 1.0, 5.0, 120.0, 5.0 / 24.0);
  }

  /** Term 2 of the sum for Bernstein-to-Legendre entry (5, 2). */
  lemma ToLegendreFiveTerm_5_2_2(n: nat)
    requires n == 5
    ensures ToLegendreTerm(n, 5, 2, 2) == -10.0 / 21.0
  {
    BinomialsAbove5(n);
    ToLegendreTermValue(n, 5, 2, 2, -1.0, 10.0, 210.0, -10.0 / 21.0);
  }

  /** Term 3 of the sum for Bernstein-to-Legendre entry (5, 2). */
  lemma ToLegendreFiveTerm_5_2_3(n: nat)
    requires n == 5
    ensures ToLegendreTerm(n, 5, 2, 3) == 25.0 / 63.0
  {
    BinomialsAbove5(n);
    ToLegendreTermValue(n, 5, 2, 3, 1.0, 10.0, 252.0, 25.0 / 63.0);
  }

  /** Term 4 of the sum for Bernstein-to-Legendre entry (5, 2). */
  lemma ToLegendreFiveTerm_5_2_4(n: nat)
    requires n == 5
    ensures ToLegendreTerm(n, 5, 2, 4) == -5.0 / 42.0
  {
    BinomialsAbove5(n);
    ToLegendreTermValue(n, 5, 2, 4, -1.0, 5.0, 210.0, -5.0 / 42.0);
  }

  /** Term 5 of the sum for Bernstein-to-Legendre entry (5, 2). */
  lemma ToLegendreFiveTerm_5_2_5(n: nat)
    requires n == 5
    ensures ToLegendreTerm(n, 5, 2, 5) == 1.0 / 120.0
  {
    BinomialsAbove5(n);
    ToLegendreTermValue(n, 5, 2, 5, 1.0, 1.0, 120.0, 1.0 / 120.0);
  }

  /** Bernstein-to-Legendre entry (5, 2): its terms summed and scaled. */
  lemma ToLegendreFive_5_2(n: nat)
    requires n == 5
    ensures ToLegendreMatrix(n)[5][2] == -5.0 / 126.0
  {
    BinomialsBelow0(n);
    ToLegendreFiveTerm_5_2_0(n);
    ToLegendreFiveTerm_5_2_1(n);
    ToLegendreFiveTerm_5_2_2(n);
    ToLegendreFiveTerm_5_2_3(n);
    ToLegendreFiveTerm_5_2_4(n);
    ToLegendreFiveTerm_5_2_5(n);
    var f := k => ToLegendreTerm(n, 5, 2, k);
    assert Sum(0, 6, f) == f(0) + f(1) + f(2) + f(3) + f(4) + f(5);
    assert Sum(0, 6, f) == -1.0 / 252.0;
  }

  /** Term 0 of the sum for Bernstein-to-Legendre entry (5, 3). */
  lemma ToLegendreFiveTerm_5_3_0(n: nat)
    requires n == 5
    ensures ToLegendreTerm(n, 5, 3, 0) == -1.0 / 120.0
  {
    BinomialsAbove5(n);
    ToLegendreTermValue(n, 5, 3, 0, -1.0, 1.0, 120.0, -1.0 / 120.0);
  }

  /** Term 1 of the sum for Bernstein-to-Legendre entry (5, 3). */
  lemma ToLegendreFiveTerm_5_3_1(n: nat)
    requires n == 5
    ensures ToLegendreTerm(n, 5, 3, 1) == 5.0 / 42.0
  {
    BinomialsAbove5(n);
    ToLegendreTermValue(n, 5, 3, 1, 1.0, 5.0, 210.0, 5.0 / 42.0);
  }

  /** Term 2 of the sum for Bernstein-to-Legendre entry (5, 3). */
  lemma ToLegendreFiveTerm_5_3_2(n: nat)
    requires n == 5
    ensures ToLegendreTerm(n, 5, 3, 2) == -25.0 / 63.0
  {
    BinomialsAbove5(n);
    ToLegendreTermValue(n, 5, 3, 2, -1.0, 10.0, 252.0, -25.0 / 63.0);
  }

  /** Term 3 of the sum for Bernstein-to-Legendre entry (5, 3). */
  lemma ToLegendreFiveTerm_5_3_3(n: nat)
    requires n == 5
    ensures ToLegendreTerm(n, 5, 3, 3) == 10.0 / 21.0
  {
    BinomialsAbove5(n);
    ToLegendreTermValue(n, 5, 3, 3, 1.0, 10.0, 210.0, 10.0 / 21.0);
  }

  /** Term 4 of the sum for Bernstein-to-Legendre entry (5, 3). */
  lemma ToLegendreFiveTerm_5_3_4(n: nat)
    requires n == 5
    ensures ToLegendreTerm(n, 5, 3, 4) == -5.0 / 24.0
  {
    BinomialsAbove5(n);
    ToLegendreTermValue(n, 5, 3, 4, -1.0, 5.0, 120.0, -5.0 / 24.0);
  }

  /** Term 5 of the sum for Bernstein-to-Legendre entry (5, 3). */
  lemma ToLegendreFiveTerm_5_3_5(n: nat)
    requires n == 5
    ensures ToLegendreTerm(n, 5, 3, 5) == 1.0 / 45.0
  {
    BinomialsAbove5(n);
    ToLegendreTermValue(n, 5, 3, 5, 1.0, 1.0, 45.0, 1.0 / 45.0);
  }

  /** Bernstein-to-Legendre entry (5, 3): its terms summed and scaled. */
  lemma ToLegendreFive_5_3(n: nat)
    requires n == 5
    ensures ToLegendreMatrix(n)[5][3] == 5.0 / 126.0
  {
    BinomialsBelow0(n);
    ToLegendreFiveTerm_5_3_0(n);
    ToLegendreFiveTerm_5_3_1(n);
    ToLegendreFiveTerm_5_3_2(n);
    ToLegendreFiveTerm_5_3_3(n);
    ToLegendreFiveTerm_5_3_4(n);
    ToLegendreFiveTerm_5_3_5(n);
    var f := k => ToLegendreTerm(n, 5, 3, k);
    assert Sum(0, 6, f) == f(0) + f(1) + f(2) + f(3) + f(4) + f(5);
    assert Sum(0, 6, f) == 1.0 / 252.0;
  }

  /** Term 0 of the sum for Bernstein-to-Legendre entry (5, 4). */
  lemma ToLegendreFiveTerm_5_4_0(n: nat)
    requires n == 5
    ensures ToLegendreTerm(n, 5, 4, 0) == -1.0 / 210.0
  {
    BinomialsAbove5(n);
    ToLegendreTermValue(n, 5, 4, 0, -1.0, 1.0, 210.0, -1.0 / 210.0);
  }

  /** Term 1 of the sum for Bernstein-to-Legendre entry (5, 4). */
  lemma ToLegendreFiveTerm_5_4_1(n: nat)
    requires n == 5
    ensures ToLegendreTerm(n, 5, 4, 1) == 25.0 / 252.0
  {
    BinomialsAbove5(n);
    ToLegendreTermValue(n, 5, 4, 1, 1.0, 5.0, 252.0, 25.0 / 252.0);
  }

  /** Term 2 of the sum for Bernstein-to-Legendre entry (5, 4). */
  lemma ToLegendreFiveTerm_5_4_2(n: nat)
    requires n == 5
    ensures ToLegendreTerm(n, 5, 4, 2) == -10.0 / 21.0
  {
    BinomialsAbove5(n);
    ToLegendreTermValue(n, 5, 4, 2, -1.0, 10.0, 210.0, -10.0 / 21.0);
  }

  /** Term 3 of the sum for Bernstein-to-Legendre entry (5, 4). */
  lemma ToLegendreFiveTerm_5_4_3(n: nat)
    requires n == 5
    ensures ToLegendreTerm(n, 5, 4, 3) == 5.0 / 6.0
  {
    BinomialsAbove5(n);
    ToLegendreTermValue(n, 5, 4, 3, 1.0, 10.0, 120.0, 5.0 / 6.0);
  }

  /** Term 4 of the sum for Bernstein-to-Legendre entry (5, 4). */
  lemma ToLegendreFiveTerm_5_4_4(n: nat)
    requires n == 5
    ensures ToLegendreTerm(n, 5, 4, 4) == -5.0 / 9.0
  {
    BinomialsAbove5(n);
    ToLegendreTermValue(n, 5, 4, 4, -1.0, 5.0, 45.0, -5.0 / 9.0);
  }

  /** Term 5 of the sum for Bernstein-to-Legendre entry (5, 4). */
  lemma ToLegendreFiveTerm_5_4_5(n: nat)
    requires n == 5
    ensures ToLegendreTerm(n, 5, 4, 5) == 1.0 / 10.0
  {
    BinomialsAbove5(n);
    ToLegendreTermValue(n, 5, 4, 5, 1.0, 1.0, 10.0, 1.0 / 10.0);
  }

  /** Bernstein-to-Legendre entry (5, 4): its terms summed and scaled. */
  lemma ToLegendreFive_5_4(n: nat)
    requires n == 5
    ensures ToLegendreMatrix(n)[5][4] == -5.0 / 252.0
  {
    BinomialsBelow0(n);
    ToLegendreFiveTerm_5_4_0(n);
    ToLegendreFiveTerm_5_4_1(n);
    ToLegendreFiveTerm_5_4_2(n);
    ToLegendreFiveTerm_5_4_3(n);
    ToLegendreFiveTerm_5_4_4(n);
    ToLegendreFiveTerm_5_4_5(n);
    var f := k => ToLegendreTerm(n, 5, 4, k);
    assert Sum(0, 6, f) == f(0) + f(1) + f(2) + f(3) + f(4) + f(5);
    assert Sum(0, 6, f) == -1.0 / 252.0;
  }

  /** Term 0 of the sum for Bernstein-to-Legendre entry (5, 5). */
  lemma ToLegendreFiveTerm_5_5_0(n: nat)
    requires n == 5
    ensures ToLegendreTerm(n, 5, 5, 0) == -1.0 / 252.0
  {
    BinomialsAbove5(n);
    ToLegendreTermValue(n, 5, 5, 0, -1.0, 1.0, 252.0, -1.0 / 252.0);
  }

  /** Term 1 of the sum for Bernstein-to-Legendre entry (5, 5). */
  lemma ToLegendreFiveTerm_5_5_1(n: nat)
    requires n == 5
    ensures ToLegendreTerm(n, 5, 5, 1) == 5.0 / 42.0
  {
    BinomialsAbove5(n);
    ToLegendreTermValue(n, 5, 5, 1, 1.0, 5.0, 210.0, 5.0 / 42.0);
  }

  /** Term 2 of the sum for Bernstein-to-Legendre entry (5, 5). */
  lemma ToLegendreFiveTerm_5_5_2(n: nat)
    requires n == 5
    ensures ToLegendreTerm(n, 5, 5, 2) == -5.0 / 6.0
  {
    BinomialsAbove5(n);
    ToLegendreTermValue(n, 5, 5, 2, -1.0, 10.0, 120.0, -5.0 / 6.0);
  }

  /** Term 3 of the sum for Bernstein-to-Legendre entry (5, 5). */
  lemma ToLegendreFiveTerm_5_5_3(n: nat)
    requires n == 5
    ensures ToLegendreTerm(n, 5, 5, 3) == 20.0 / 9.0
  {
    BinomialsAbove5(n);
    ToLegendreTermValue(n, 5, 5, 3, 1.0, 10.0, 45.0, 20.0 / 9.0);
  }

  /** Term 4 of the sum for Bernstein-to-Legendre entry (5, 5). */
  lemma ToLegendreFiveTerm_5_5_4(n: nat)
    requires n == 5
    ensures ToLegendreTerm(n, 5, 5, 4) == -5.0 / 2.0
  {
    BinomialsAbove5(n);
    ToLegendreTermValue(n, 5, 5, 4, -1.0, 5.0, 10.0, -5.0 / 2.0);
  }

  /** Term 5 of the sum for Bernstein-to-Legendre entry (5, 5). */
  lemma ToLegendreFiveTerm_5_5_5(n: nat)
    requires n == 5
    ensures ToLegendreTerm(n, 5, 5, 5) == 1.0
  {
    BinomialsAbove5(n);
    ToLegendreTermValue(n, 5, 5, 5, 1.0, 1.0, 1.0, 1.0);
  }

  /** Bernstein-to-Legendre entry (5, 5): its terms summed and scaled. */
  lemma ToLegendreFive_5_5(n: nat)
    requires n == 5
    ensures ToLegendreMatrix(n)[5][5] == 1.0 / 252.0
  {
    BinomialsBelow0(n);
    ToLegendreFiveTerm_5_5_0(n);
    ToLegendreFiveTerm_5_5_1(n);
    ToLegendreFiveTerm_5_5_2(n);
    ToLegendreFiveTerm_5_5_3(n);
    ToLegendreFiveTerm_5_5_4(n);
    ToLegendreFiveTerm_5_5_5(n);
    var f := k => ToLegendreTerm(n, 5, 5, k);
    assert Sum(0, 6, f) == f(0) + f(1) + f(2) + f(3) + f(4) + f(5);
    assert Sum(0, 6, f) == 1.0 / 252.0;
  }

  /** Two sequences of length six are equal when their six entries are. */
  lemma SixEntries<T>(r: seq<T>, v: seq<T>)
    requires |r| == 6 && |v| == 6
    requires r[0] == v[0] && r[1] == v[1] && r[2] == v[2] && r[3] == v[3] && r[4] == v[4] && r[5] == v[5]
    ensures r == v
  {
    assert forall j :: 0 <= j < 6 ==> r[j] == v[j];
  }

  /** Row 0 of the Bernstein-to-Legendre matrix of degree 5. */
  lemma ToLegendreFiveRow0(n: nat)
    requires n == 5
    ensures ToLegendreMatrix(n)[0] == [1.0 / 6.0, 1.0 / 6.0, 1.0 / 6.0, 1.0 / 6.0, 1.0 / 6.0, 1.0 / 6.0]
  {
    ToLegendreFirstRow(n, 0);
    ToLegendreFirstRow(n, 1);
    ToLegendreFirstRow(n, 2);
    ToLegendreFirstRow(n, 3);
    ToLegendreFirstRow(n, 4);
    ToLegendreFirstRow(n, 5);
    SixEntries(ToLegendreMatrix(n)[0], [1.0 / 6.0, 1.0 / 6.0, 1.0 / 6.0, 1.0 / 6.0, 1.0 / 6.0, 1.0 / 6.0]);
  }

  /** Row 1 of the Bernstein-to-Legendre matrix of degree 5. */
  lemma ToLegendreFiveRow1(n: nat)
    requires n == 5
    ensures ToLegendreMatrix(n)[1] == [-5.0 / 14.0, -3.0 / 14.0, -1.0 / 14.0, 1.0 / 14.0, 3.0 / 14.0, 5.0 / 14.0]
  {
    ToLegendreFive_1_0(n);
    ToLegendreFive_1_1(n);
    ToLegendreFive_1_2(n);
    ToLegendreFive_1_3(n);
    ToLegendreFive_1_4(n);
    ToLegendreFive_1_5(n);
    SixEntries(ToLegendreMatrix(n)[1], [-5.0 / 14.0, -3.0 / 14.0, -1.0 / 14.0, 1.0 / 14.0, 3.0 / 14.0, 5.0 / 14.0]);
  }

  /** Row 2 of the Bernstein-to-Legendre matrix of degree 5. */
  lemma ToLegendreFiveRow2(n: nat)
    requires n == 5
    ensures ToLegendreMatrix(n)[2] == [25.0 / 84.0, -5.0 / 84.0, -5.0 / 21.0, -5.0 / 21.0, -5.0 / 84.0, 25.0 / 84.0]
  {
    ToLegendreFive_2_0(n);
    ToLegendreFive_2_1(n);
    ToLegendreFive_2_2(n);
    ToLegendreFive_2_3(n);
    ToLegendreFive_2_4(n);
    ToLegendreFive_2_5(n);
    SixEntries(ToLegendreMatrix(n)[2], [25.0 / 84.0, -5.0 / 84.0, -5.0 / 21.0, -5.0 / 21.0, -5.0 / 84.0, 25.0 / 84.0]);
  }

  /** Row 3 of the Bernstein-to-Legendre matrix of degree 5. */
  lemma ToLegendreFiveRow3(n: nat)
    requires n == 5
    ensures ToLegendreMatrix(n)[3] == [-5.0 / 36.0, 7.0 / 36.0, 1.0 / 9.0, -1.0 / 9.0, -7.0 / 36.0, 5.0 / 36.0]
  {
    ToLegendreFive_3_0(n);
    ToLegendreFive_3_1(n);
    ToLegendreFive_3_2(n);
    ToLegendreFive_3_3(n);
    ToLegendreFive_3_4(n);
    ToLegendreFive_3_5(n);
    SixEntries(ToLegendreMatrix(n)[3], [-5.0 / 36.0, 7.0 / 36.0, 1.0 / 9.0, -1.0 / 9.0, -7.0 / 36.0, 5.0 / 36.0]);
  }

  /** Row 4 of the Bernstein-to-Legendre matrix of degree 5. */
  lemma ToLegendreFiveRow4(n: nat)
    requires n == 5
    ensures ToLegendreMatrix(n)[4] == [1.0 / 28.0, -3.0 / 28.0, 1.0 / 14.0, 1.0 / 14.0, -3.0 / 28.0, 1.0 / 28.0]
  {
    ToLegendreFive_4_0(n);
    ToLegendreFive_4_1(n);
    ToLegendreFive_4_2(n);
    ToLegendreFive_4_3(n);
    ToLegendreFive_4_4(n);
    ToLegendreFive_4_5(n);
    SixEntries(ToLegendreMatrix(n)[4], [1.0 / 28.0, -3.0 / 28.0, 1.0 / 14.0, 1.0 / 14.0, -3.0 / 28.0, 1.0 / 28.0]);
  }

  /** Row 5 of the Bernstein-to-Legendre matrix of degree 5. */
  lemma ToLegendreFiveRow5(n: nat)
    requires n == 5
    ensures ToLegendreMatrix(n)[5] == [-1.0 / 252.0, 5.0 / 252.0, -5.0 / 126.0, 5.0 / 126.0, -5.0 / 252.0, 1.0 / 252.0]
  {
    ToLegendreFive_5_0(n);
    ToLegendreFive_5_1(n);
    ToLegendreFive_5_2(n);
    ToLegendreFive_5_3(n);
    ToLegendreFive_5_4(n);
    ToLegendreFive_5_5(n);
    SixEntries(ToLegendreMatrix(n)[5], [-1.0 / 252.0, 5.0 / 252.0, -5.0 / 126.0, 5.0 / 126.0, -5.0 / 252.0, 1.0 / 252.0]);
  }

  /** The Bernstein-to-Legendre matrix of degree 5 is ToLegendreFive. */
  lemma ToLegendreFiveMatrix(n: nat)
    requires n == 5
    ensures ToLegendreMatrix(n) == ToLegendreFive
  {
    ToLegendreFiveRow0(n);
    ToLegendreFiveRow1(n);
    ToLegendreFiveRow2(n);
    ToLegendreFiveRow3(n);
    ToLegendreFiveRow4(n);
    ToLegendreFiveRow5(n);
    SixEntries(ToLegendreMatrix(n), ToLegendreFive);
  }

  // ---------------------------------------------------------------------
  // Legendre to Bernstein

  /** A term of the Legendre-to-Bernstein sum, from the values of its sign and binomials. */
  lemma ToBernsteinTermValue(n: nat, i: nat, j: nat, k: int, s: real, c: real, d: real, v: real)
    requires Mop(j + k) == s && RChoose(j, k) == c && RChoose(n - j, i - k) == d
    requires v == s * Square(c) * d
    ensures ToBernsteinTerm(n, i, j, k) == v
  {
    ToBernsteinTermIs(n, i, j, k, v);
  }

  /** Legendre-to-Bernstein entry (0, 1): its terms summed and divided by C(5, 0). */
  lemma ToBernsteinFive_0_1(n: nat)
    requires n == 5
    ensures ToBernsteinMatrix(n)[0][1] == -1.0
  {
    BinomialsBelow0(n);
    BinomialsBelow1(n);
    ToBernsteinTermValue(n, 0, 1, 0, -1.0, 1.0, 1.0, -1.0);
    assert First(n, 0, 1) == 0 && Last(0, 1) == 1;
    var f := k => ToBernsteinTerm(n, 0, 1, k);
    assert Sum(0, 1, f) == f(0);
    assert Sum(0, 1, f) == -1.0;
  }

  /** Legendre-to-Bernstein entry (0, 2): its terms summed and divided by C(5, 0). */
  lemma ToBernsteinFive_0_2(n: nat)
    requires n == 5
    ensures ToBernsteinMatrix(n)[0][2] == 1.0
  {
    BinomialsBelow0(n);
    BinomialsBelow2(n);
    ToBernsteinTermValue(n, 0, 2, 0, 1.0, 1.0, 1.0, 1.0);
    assert First(n, 0, 2) == 0 && Last(0, 2) == 1;
    var f := k => ToBernsteinTerm(n, 0, 2, k);
    assert Sum(0, 1, f) == f(0);
    assert Sum(0, 1, f) == 1.0;
  }

  /** Legendre-to-Bernstein entry (0, 3): its terms summed and divided by C(5, 0). */
  lemma ToBernsteinFive_0_3(n: nat)
    requires n == 5
    ensures ToBernsteinMatrix(n)[0][3] == -1.0
  {
    BinomialsBelow0(n);
    BinomialsBelow3(n);
    ToBernsteinTermValue(n, 0, 3, 0, -1.0, 1.0, 1.0, -1.0);
    assert First(n, 0, 3) == 0 && Last(0, 3) == 1;
    var f := k => ToBernsteinTerm(n, 0, 3, k);
    assert Sum(0, 1, f) == f(0);
    assert Sum(0, 1, f) == -1.0;
  }

  /** Legendre-to-Bernstein entry (0, 4): its terms summed and divided by C(5, 0). */
  lemma ToBernsteinFive_0_4(n: nat)
    requires n == 5
    ensures ToBernsteinMatrix(n)[0][4] == 1.0
  {
    BinomialsBelow0(n);
    BinomialsBelow4(n);
    ToBernsteinTermValue(n, 0, 4, 0, 1.0, 1.0, 1.0, 1.0);
    assert First(n, 0, 4) == 0 && Last(0, 4) == 1;
    var f := k => ToBernsteinTerm(n, 0, 4, k);
    assert Sum(0, 1, f) == f(0);
    assert Sum(0, 1, f) == 1.0;
  }

  /** Legendre-to-Bernstein entry (0, 5): its terms summed and divided by C(5, 0). */
  lemma ToBernsteinFive_0_5(n: nat)
    requires n == 5
    ensures ToBernsteinMatrix(n)[0][5] == -1.0
  {
    BinomialsBelow0(n);
    BinomialsBelow5(n);
    ToBernsteinTermValue(n, 0, 5, 0, -1.0, 1.0, 1.0, -1.0);
    assert First(n, 0, 5) == 0 && Last(0, 5) == 1;
    var f := k => ToBernsteinTerm(n, 0, 5, k);
    assert Sum(0, 1, f) == f(0);
    assert Sum(0, 1, f) == -1.0;
  }

  /** Legendre-to-Bernstein entry (1, 1): its terms summed and divided by C(5, 1). */
  lemma ToBernsteinFive_1_1(n: nat)
    requires n == 5
    ensures ToBernsteinMatrix(n)[1][1] == -3.0 / 5.0
  {
    BinomialsBelow0(n);
    BinomialsBelow1(n);
    ToBernsteinTermValue(n, 1, 1, 0, -1.0, 1.0, 4.0, -4.0);
    ToBernsteinTermValue(n, 1, 1, 1, 1.0, 1.0, 1.0, 1.0);
    assert First(n, 1, 1) == 0 && Last(1, 1) == 2;
    var f := k => ToBernsteinTerm(n, 1, 1, k);
    assert Sum(0, 2, f) == f(0) + f(1);
    assert Sum(0, 2, f) == -3.0;
  }

  /** Legendre-to-Bernstein entry (1, 2): its terms summed and divided by C(5, 1). */
  lemma ToBernsteinFive_1_2(n: nat)
    requires n == 5
    ensures ToBernsteinMatrix(n)[1][2] == -1.0 / 5.0
  {
    BinomialsBelow0(n);
    BinomialsBelow2(n);
    ToBernsteinTermValue(n, 1, 2, 0, 1.0, 1.0, 3.0, 3.0);
    ToBernsteinTermValue(n, 1, 2, 1, -1.0, 2.0, 1.0, -4.0);
    assert First(n, 1, 2) == 0 && Last(1, 2) == 2;
    var f := k => ToBernsteinTerm(n, 1, 2, k);
    assert Sum(0, 2, f) == f(0) + f(1);
    assert Sum(0, 2, f) == -1.0;
  }

  /** Legendre-to-Bernstein entry (1, 3): its terms summed and divided by C(5, 1). */
  lemma ToBernsteinFive_1_3(n: nat)
    requires n == 5
    ensures ToBernsteinMatrix(n)[1][3] == 7.0 / 5.0
  {
    BinomialsBelow0(n);
    BinomialsBelow3(n);
    ToBernsteinTermValue(n, 1, 3, 0, -1.0, 1.0, 2.0, -2.0);
    ToBernsteinTermValue(n, 1, 3, 1, 1.0, 3.0, 1.0, 9.0);
    assert First(n, 1, 3) == 0 && Last(1, 3) == 2;
    var f := k => ToBernsteinTerm(n, 1, 3, k);
    assert Sum(0, 2, f) == f(0) + f(1);
    assert Sum(0, 2, f) == 7.0;
  }

  /** Legendre-to-Bernstein entry (1, 4): its terms summed and divided by C(5, 1). */
  lemma ToBernsteinFive_1_4(n: nat)
    requires n == 5
    ensures ToBernsteinMatrix(n)[1][4] == -3.0
  {
    BinomialsBelow0(n);
    BinomialsBelow4(n);
    ToBernsteinTermValue(n, 1, 4, 0, 1.0, 1.0, 1.0, 1.0);
    ToBernsteinTermValue(n, 1, 4, 1, -1.0, 4.0, 1.0, -16.0);
    assert First(n, 1, 4) == 0 && Last(1, 4) == 2;
    var f := k => ToBernsteinTerm(n, 1, 4, k);
    assert Sum(0, 2, f) == f(0) + f(1);
    assert Sum(0, 2, f) == -15.0;
  }

  /** Legendre-to-Bernstein entry (1, 5): its terms summed and divided by C(5, 1). */
  lemma ToBernsteinFive_1_5(n: nat)
    requires n == 5
    ensures ToBernsteinMatrix(n)[1][5] == 5.0
  {
    BinomialsBelow0(n);
    BinomialsBelow5(n);
    ToBernsteinTermValue(n, 1, 5, 1, 1.0, 5.0, 1.0, 25.0);
    assert First(n, 1, 5) == 1 && Last(1, 5) == 2;
    var f := k => ToBernsteinTerm(n, 1, 5, k);
    assert Sum(1, 2, f) == f(1);
    assert Sum(1, 2, f) == 25.0;
  }

  /** Legendre-to-Bernstein entry (2, 1): its terms summed and divided by C(5, 2). */
  lemma ToBernsteinFive_2_1(n: nat)
    requires n == 5
    ensures ToBernsteinMatrix(n)[2][1] == -1.0 / 5.0
  {
    BinomialsBelow0(n);
    BinomialsBelow1(n);
    ToBernsteinTermValue(n, 2, 1, 0, -1.0, 1.0, 6.0, -6.0);
    ToBernsteinTermValue(n, 2, 1, 1, 1.0, 1.0, 4.0, 4.0);
    assert First(n, 2, 1) == 0 && Last(2, 1) == 2;
    var f := k => ToBernsteinTerm(n, 2, 1, k);
    assert Sum(0, 2, f) == f(0) + f(1);
    assert Sum(0, 2, f) == -2.0;
  }

  /** Legendre-to-Bernstein entry (2, 2): its terms summed and divided by C(5, 2). */
  lemma ToBernsteinFive_2_2(n: nat)
    requires n == 5
    ensures ToBernsteinMatrix(n)[2][2] == -4.0 / 5.0
  {
    BinomialsBelow0(n);
    BinomialsBelow2(n);
    ToBernsteinTermValue(n, 2, 2, 0, 1.0, 1.0, 3.0, 3.0);
    ToBernsteinTermValue(n, 2, 2, 1, -1.0, 2.0, 3.0, -12.0);
    ToBernsteinTermValue(n, 2, 2, 2, 1.0, 1.0, 1.0, 1.0);
    assert First(n, 2, 2) == 0 && Last(2, 2) == 3;
    var f := k => ToBernsteinTerm(n, 2, 2, k);
    assert Sum(0, 3, f) == f(0) + f(1) + f(2);
    assert Sum(0, 3, f) == -8.0;
  }

  /** Legendre-to-Bernstein entry (2, 3): its terms summed and divided by C(5, 2). */
  lemma ToBernsteinFive_2_3(n: nat)
    requires n == 5
    ensures ToBernsteinMatrix(n)[2][3] == 4.0 / 5.0
  {
    BinomialsBelow0(n);
    BinomialsBelow3(n);
    ToBernsteinTermValue(n, 2, 3, 0, -1.0, 1.0, 1.0, -1.0);
    ToBernsteinTermValue(n, 2, 3, 1, 1.0, 3.0, 2.0, 18.0);
    ToBernsteinTermValue(n, 2, 3, 2, -1.0, 3.0, 1.0, -9.0);
    assert First(n, 2, 3) == 0 && Last(2, 3) == 3;
    var f := k => ToBernsteinTerm(n, 2, 3, k);
    assert Sum(0, 3, f) == f(0) + f(1) + f(2);
    assert Sum(0, 3, f) == 8.0;
  }

  /** Legendre-to-Bernstein entry (2, 4): its terms summed and divided by C(5, 2). */
  lemma ToBernsteinFive_2_4(n: nat)
    requires n == 5
    ensures ToBernsteinMatrix(n)[2][4] == 2.0
  {
    BinomialsBelow0(n);
    BinomialsBelow4(n);
    ToBernsteinTermValue(n, 2, 4, 1, -1.0, 4.0, 1.0, -16.0);
    ToBernsteinTermValue(n, 2, 4, 2, 1.0, 6.0, 1.0, 36.0);
    assert First(n, 2, 4) == 1 && Last(2, 4) == 3;
    var f := k => ToBernsteinTerm(n, 2, 4, k);
    assert Sum(1, 3, f) == f(1) + f(2);
    assert Sum(1, 3, f) == 20.0;
  }

  /** Legendre-to-Bernstein entry (2, 5): its terms summed and divided by C(5, 2). */
  lemma ToBernsteinFive_2_5(n: nat)
    requires n == 5
    ensures ToBernsteinMatrix(n)[2][5] == -10.0
  {
    BinomialsBelow0(n);
    BinomialsBelow5(n);
    ToBernsteinTermValue(n, 2, 5, 2, -1.0, 10.0, 1.0, -100.0);
    assert First(n, 2, 5) == 2 && Last(2, 5) == 3;
    var f := k => ToBernsteinTerm(n, 2, 5, k);
    assert Sum(2, 3, f) == f(2);
    assert Sum(2, 3, f) == -100.0;
  }

  /** Legendre-to-Bernstein entry (0, 0) from column 0. */
  lemma ToBernsteinFiveCell_0_0(n: nat)
    requires n == 5
    ensures ToBernsteinMatrix(n)[0][0] == 1.0
  {
    ToBernsteinFirstColumn(n, 0);
  }

  /** Row 0 of the Legendre-to-Bernstein matrix of degree 5. */
  lemma ToBernsteinFiveRow0(n: nat)
    requires n == 5
    ensures ToBernsteinMatrix(n)[0] == [1.0, -1.0, 1.0, -1.0, 1.0, -1.0]
  {
    ToBernsteinFiveCell_0_0(n);
    ToBernsteinFive_0_1(n);
    ToBernsteinFive_0_2(n);
    ToBernsteinFive_0_3(n);
    ToBernsteinFive_0_4(n);
    ToBernsteinFive_0_5(n);
    SixEntries(ToBernsteinMatrix(n)[0], [1.0, -1.0, 1.0, -1.0, 1.0, -1.0]);
  }

  /** Legendre-to-Bernstein entry (1, 0) from column 0. */
  lemma ToBernsteinFiveCell_1_0(n: nat)
    requires n == 5
    ensures ToBernsteinMatrix(n)[1][0] == 1.0
  {
    ToBernsteinFirstColumn(n, 1);
  }

  /** Row 1 of the Legendre-to-Bernstein matrix of degree 5. */
  lemma ToBernsteinFiveRow1(n: nat)
    requires n == 5
    ensures ToBernsteinMatrix(n)[1] == [1.0, -3.0 / 5.0, -1.0 / 5.0, 7.0 / 5.0, -3.0, 5.0]
  {
    ToBernsteinFiveCell_1_0(n);
    ToBernsteinFive_1_1(n);
    ToBernsteinFive_1_2(n);
    ToBernsteinFive_1_3(n);
    ToBernsteinFive_1_4(n);
    ToBernsteinFive_1_5(n);
    SixEntries(ToBernsteinMatrix(n)[1], [1.0, -3.0 / 5.0, -1.0 / 5.0, 7.0 / 5.0, -3.0, 5.0]);
  }

  /** Legendre-to-Bernstein entry (2, 0) from column 0. */
  lemma ToBernsteinFiveCell_2_0(n: nat)
    requires n == 5
    ensures ToBernsteinMatrix(n)[2][0] == 1.0
  {
    ToBernsteinFirstColumn(n, 2);
  }

  /** Row 2 of the Legendre-to-Bernstein matrix of degree 5. */
  lemma ToBernsteinFiveRow2(n: nat)
    requires n == 5
    ensures ToBernsteinMatrix(n)[2] == [1.0, -1.0 / 5.0, -4.0 / 5.0, 4.0 / 5.0, 2.0, -10.0]
  {
    ToBernsteinFiveCell_2_0(n);
    ToBernsteinFive_2_1(n);
    ToBernsteinFive_2_2(n);
    ToBernsteinFive_2_3(n);
    ToBernsteinFive_2_4(n);
    ToBernsteinFive_2_5(n);
    SixEntries(ToBernsteinMatrix(n)[2], [1.0, -1.0 / 5.0, -4.0 / 5.0, 4.0 / 5.0, 2.0, -10.0]);
  }

  /** Legendre-to-Bernstein entry (3, 0) from column 0. */
  lemma ToBernsteinFiveCell_3_0(n: nat)
    requires n == 5
    ensures ToBernsteinMatrix(n)[3][0] == 1.0
  {
    ToBernsteinFirstColumn(n, 3);
  }

  /** Legendre-to-Bernstein entry (3, 1), reflected from row 2. */
  lemma ToBernsteinFiveCell_3_1(n: nat)
    requires n == 5
    ensures ToBernsteinMatrix(n)[3][1] == 1.0 / 5.0
  {
    ToBernsteinFive_2_1(n);
    ToBernsteinReflect(n, 2, 1);
  }

  /** Legendre-to-Bernstein entry (3, 2), reflected from row 2. */
  lemma ToBernsteinFiveCell_3_2(n: nat)
    requires n == 5
    ensures ToBernsteinMatrix(n)[3][2] == -4.0 / 5.0
  {
    ToBernsteinFive_2_2(n);
    ToBernsteinReflect(n, 2, 2);
  }

  /** Legendre-to-Bernstein entry (3, 3), reflected from row 2. */
  lemma ToBernsteinFiveCell_3_3(n: nat)
    requires n == 5
    ensures ToBernsteinMatrix(n)[3][3] == -4.0 / 5.0
  {
    ToBernsteinFive_2_3(n);
    ToBernsteinReflect(n, 2, 3);
  }

  /** Legendre-to-Bernstein entry (3, 4), reflected from row 2. */
  lemma ToBernsteinFiveCell_3_4(n: nat)
    requires n == 5
    ensures ToBernsteinMatrix(n)[3][4] == 2.0
  {
    ToBernsteinFive_2_4(n);
    ToBernsteinReflect(n, 2, 4);
  }

  /** Legendre-to-Bernstein entry (3, 5), reflected from row 2. */
  lemma ToBernsteinFiveCell_3_5(n: nat)
    requires n == 5
    ensures ToBernsteinMatrix(n)[3][5] == 10.0
  {
    ToBernsteinFive_2_5(n);
    ToBernsteinReflect(n, 2, 5);
  }

  /** Row 3 of the Legendre-to-Bernstein matrix of degree 5. */
  lemma ToBernsteinFiveRow3(n: nat)
    requires n == 5
    ensures ToBernsteinMatrix(n)[3] == [1.0, 1.0 / 5.0, -4.0 / 5.0, -4.0 / 5.0, 2.0, 10.0]
  {
    ToBernsteinFiveCell_3_0(n);
    ToBernsteinFiveCell_3_1(n);
    ToBernsteinFiveCell_3_2(n);
    ToBernsteinFiveCell_3_3(n);
    ToBernsteinFiveCell_3_4(n);
    ToBernsteinFiveCell_3_5(n);
    SixEntries(ToBernsteinMatrix(n)[3], [1.0, 1.0 / 5.0, -4.0 / 5.0, -4.0 / 5.0, 2.0, 10.0]);
  }

  /** Legendre-to-Bernstein entry (4, 0) from column 0. */
  lemma ToBernsteinFiveCell_4_0(n: nat)
    requires n == 5
    ensures ToBernsteinMatrix(n)[4][0] == 1.0
  {
    ToBernsteinFirstColumn(n, 4);
  }

  /** Legendre-to-Bernstein entry (4, 1), reflected from row 1. */
  lemma ToBernsteinFiveCell_4_1(n: nat)
    requires n == 5
    ensures ToBernsteinMatrix(n)[4][1] == 3.0 / 5.0
  {
    ToBernsteinFive_1_1(n);
    ToBernsteinReflect(n, 1, 1);
  }

  /** Legendre-to-Bernstein entry (4, 2), reflected from row 1. */
  lemma ToBernsteinFiveCell_4_2(n: nat)
    requires n == 5
    ensures ToBernsteinMatrix(n)[4][2] == -1.0 / 5.0
  {
    ToBernsteinFive_1_2(n);
    ToBernsteinReflect(n, 1, 2);
  }

  /** Legendre-to-Bernstein entry (4, 3), reflected from row 1. */
  lemma ToBernsteinFiveCell_4_3(n: nat)
    requires n == 5
    ensures ToBernsteinMatrix(n)[4][3] == -7.0 / 5.0
  {
    ToBernsteinFive_1_3(n);
    ToBernsteinReflect(n, 1, 3);
  }

  /** Legendre-to-Bernstein entry (4, 4), reflected from row 1. */
  lemma ToBernsteinFiveCell_4_4(n: nat)
    requires n == 5
    ensures ToBernsteinMatrix(n)[4][4] == -3.0
  {
    ToBernsteinFive_1_4(n);
    ToBernsteinReflect(n, 1, 4);
  }

  /** Legendre-to-Bernstein entry (4, 5), reflected from row 1. */
  lemma ToBernsteinFiveCell_4_5(n: nat)
    requires n == 5
    ensures ToBernsteinMatrix(n)[4][5] == -5.0
  {
    ToBernsteinFive_1_5(n);
    ToBernsteinReflect(n, 1, 5);
  }

  /** Row 4 of the Legendre-to-Bernstein matrix of degree 5. */
  lemma ToBernsteinFiveRow4(n: nat)
    requires n == 5
    ensures ToBernsteinMatrix(n)[4] == [1.0, 3.0 / 5.0, -1.0 / 5.0, -7.0 / 5.0, -3.0, -5.0]
  {
    ToBernsteinFiveCell_4_0(n);
    ToBernsteinFiveCell_4_1(n);
    ToBernsteinFiveCell_4_2(n);
    ToBernsteinFiveCell_4_3(n);
    ToBernsteinFiveCell_4_4(n);
    ToBernsteinFiveCell_4_5(n);
    SixEntries(ToBernsteinMatrix(n)[4], [1.0, 3.0 / 5.0, -1.0 / 5.0, -7.0 / 5.0, -3.0, -5.0]);
  }

  /** Legendre-to-Bernstein entry (5, 0) from column 0. */
  lemma ToBernsteinFiveCell_5_0(n: nat)
    requires n == 5
    ensures ToBernsteinMatrix(n)[5][0] == 1.0
  {
    ToBernsteinFirstColumn(n, 5);
  }

  /** Legendre-to-Bernstein entry (5, 1), reflected from row 0. */
  lemma ToBernsteinFiveCell_5_1(n: nat)
    requires n == 5
    ensures ToBernsteinMatrix(n)[5][1] == 1.0
  {
    ToBernsteinFive_0_1(n);
    ToBernsteinReflect(n, 0, 1);
  }

  /** Legendre-to-Bernstein entry (5, 2), reflected from row 0. */
  lemma ToBernsteinFiveCell_5_2(n: nat)
    requires n == 5
    ensures ToBernsteinMatrix(n)[5][2] == 1.0
  {
    ToBernsteinFive_0_2(n);
    ToBernsteinReflect(n, 0, 2);
  }

  /** Legendre-to-Bernstein entry (5, 3), reflected from row 0. */
  lemma ToBernsteinFiveCell_5_3(n: nat)
    requires n == 5
    ensures ToBernsteinMatrix(n)[5][3] == 1.0
  {
    ToBernsteinFive_0_3(n);
    ToBernsteinReflect(n, 0, 3);
  }

  /** Legendre-to-Bernstein entry (5, 4), reflected from row 0. */
  lemma ToBernsteinFiveCell_5_4(n: nat)
    requires n == 5
    ensures ToBernsteinMatrix(n)[5][4] == 1.0
  {
    ToBernsteinFive_0_4(n);
    ToBernsteinReflect(n, 0, 4);
  }

  /** Legendre-to-Bernstein entry (5, 5), reflected from row 0. */
  lemma ToBernsteinFiveCell_5_5(n: nat)
    requires n == 5
    ensures ToBernsteinMatrix(n)[5][5] == 1.0
  {
    ToBernsteinFive_0_5(n);
    ToBernsteinReflect(n, 0, 5);
  }

  /** Row 5 of the Legendre-to-Bernstein matrix of degree 5. */
  lemma ToBernsteinFiveRow5(n: nat)
    requires n == 5
    ensures ToBernsteinMatrix(n)[5] == [1.0, 1.0, 1.0, 1.0, 1.0, 1.0]
  {
    ToBernsteinFiveCell_5_0(n);
    ToBernsteinFiveCell_5_1(n);
    ToBernsteinFiveCell_5_2(n);
    ToBernsteinFiveCell_5_3(n);
    ToBernsteinFiveCell_5_4(n);
    ToBernsteinFiveCell_5_5(n);
    SixEntries(ToBernsteinMatrix(n)[5], [1.0, 1.0, 1.0, 1.0, 1.0, 1.0]);
  }

  /** The Legendre-to-Bernstein matrix of degree 5 is ToBernsteinFive. */
  lemma ToBernsteinFiveMatrix(n: nat)
    requires n == 5
    ensures ToBernsteinMatrix(n) == ToBernsteinFive
  {
    ToBernsteinFiveRow0(n);
    ToBernsteinFiveRow1(n);
    ToBernsteinFiveRow2(n);
    ToBernsteinFiveRow3(n);
    ToBernsteinFiveRow4(n);
    ToBernsteinFiveRow5(n);
    SixEntries(ToBernsteinMatrix(n), ToBernsteinFive);
  }

  // ---------------------------------------------------------------------
  // The product

  /** Row 0 of the product of the two degree-5 matrices. */
  lemma ProductFiveRow0()
    ensures MatMul(ToLegendreFive, ToBernsteinFive, 6)[0] == Identity(6)[0]
  {
  }

  /** Row 1 of the product of the two degree-5 matrices. */
  lemma ProductFiveRow1()
    ensures MatMul(ToLegendreFive, ToBernsteinFive, 6)[1] == Identity(6)[1]
  {
  }

  /** Row 2 of the product of the two degree-5 matrices. */
  lemma ProductFiveRow2()
    ensures MatMul(ToLegendreFive, ToBernsteinFive, 6)[2] == Identity(6)[2]
  {
  }

  /** Row 3 of the product of the two degree-5 matrices. */
  lemma ProductFiveRow3()
    ensures MatMul(ToLegendreFive, ToBernsteinFive, 6)[3] == Identity(6)[3]
  {
  }

  /** Row 4 of the product of the two degree-5 matrices. */
  lemma ProductFiveRow4()
    ensures MatMul(ToLegendreFive, ToBernsteinFive, 6)[4] == Identity(6)[4]
  {
  }

  /** Row 5 of the product of the two degree-5 matrices. */
  lemma ProductFiveRow5()
    ensures MatMul(ToLegendreFive, ToBernsteinFive, 6)[5] == Identity(6)[5]
  {
  }

  /** The product of the two literal matrices is the identity of order 6. */
  lemma ProductFive()
    ensures MatMul(ToLegendreFive, ToBernsteinFive, 6) == Identity(6)
  {
    ProductFiveRow0();
    ProductFiveRow1();
    ProductFiveRow2();
    ProductFiveRow3();
    ProductFiveRow4();
    ProductFiveRow5();
    var p := MatMul(ToLegendreFive, ToBernsteinFive, 6);
    assert forall r :: 0 <= r < 6 ==> p[r] == Identity(6)[r];
  }

  /**
   * Round trip for degree 5, the degree whose product the module's own
   * demonstration prints: Bernstein-to-Legendre times Legendre-to-Bernstein
   * is the identity of order 6.
   */
  lemma RoundTripFive(n: nat)
    requires n == 5
    ensures ToLegendreMatrix(n) == ToLegendreFive && ToBernsteinMatrix(n) == ToBernsteinFive
    ensures MatMul(ToLegendreMatrix(n), ToBernsteinMatrix(n), n + 1) == Identity(n + 1)
  {
    ToLegendreFiveMatrix(n);
    ToBernsteinFiveMatrix(n);
    ProductFive();
  }
}
