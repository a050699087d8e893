# Bernstein polynomials: a verified Dafny model

This project models the numerical core of a small Python library on the
Bernstein polynomial basis:

- the evaluation of the basis B(n, k)(x) on [0, 1] and on an arbitrary interval [a, b];
- the same evaluation at many points, filled row by row into a matrix;
- the Bernstein approximant Σ ydata[k] B(n, k)(x) on [a, b];
- the matrix builders. These are the Bernstein matrix, its analytic inverse and its determinant, the Bernstein↔power and Bernstein↔shifted-Legendre conversion matrices, and the Bernstein–Vandermonde matrix.

Every routine of the library is an imperative array computation, and each is modelled as a Dafny `method` of the same shape:

- a zero-initialised `array` or `array2`;
- the same loop nest, with the same bounds, the same reversed indices and the same in-place updates.

The innermost loop bodies are split into small helper methods of their own (one column, one row, one cell, one term). Each method is proved against a specification function: `Basis`, `BasisAb`, `AsMatrix`, `ToPowerMatrix`, `ToLegendreMatrix` and so on. The properties the library documents are then proved as lemmas about those functions.

All arithmetic is exact (`real`). The library uses floating point only as a carrier, and every operation is +, −, × or ÷ by a non-zero value. The two helpers the library imports from its modules `r8_choose` and `r8_mop` are outside this model. They are supplied here as total functions:

- `Combinatorics.Choose` for `r8_choose`: the binomial coefficient, 0 outside 0 ≤ k ≤ n;
- `Combinatorics.Mop` for `r8_mop`: (−1)^k.

Modules:

- `Algebra`: finite sums and products and their rules, plus powers.
- `Combinatorics`: binomials, factorials, the "revision" identity C(n,k) C(k,j) = C(n,j) C(n−j,k−j), and the alternating row sums of Pascal's triangle.
- `Matrices`: matrices as sequences of rows, the product, the identity, and the determinant by cofactor expansion.
- `Poly01`, `PolyAb`, `Poly01Matrix`, `PolyAbApprox`: basis evaluation.
- `BMatrix`, `BMatrixInverse`, `BMatrixDeterminant`, `BToPower`, `BLegendre`, `BVandermonde`: one module per matrix builder.
- `BLegendreFive`: the two Legendre conversion matrices of degree 5 written out, and their product.

## Model

| member | source | states |
|---|---|---|
| Poly01.BernsteinPoly01 | bernstein_poly_01.py:75-92 | The result has length n + 1 and equals the degree-n basis at x. For n = 0 it is exactly [1]. Its entries sum to 1, and they are all non-negative when 0 ≤ x ≤ 1. The loop keeps slots 0..i−1 at the degree i−1 basis and slots above at 0. |
| Poly01.RaiseDegree | bernstein_poly_01.py:86-90 | One outer-loop pass turns slots 0..i−1 (the degree i−1 basis) into slots 0..i (the degree i basis): first b[i], then the downward sweep, then b[0]. Slots above i are unchanged. |
| Poly01.Bernstein | bernstein_poly_01.py:86-90 | The definition of B(n, k)(x): 0 for k outside 0..n, 1 for n = 0, and otherwise x B(n−1, k−1) + (1−x) B(n−1, k), the update the sweep applies to each slot. Its contract: for 0 ≤ x ≤ 1 no value exceeds 1. |
| Poly01.Basis | bernstein_poly_01.py:71 | The basis vector has n + 1 entries, and entry k is B(n, k)(x). |
| Poly01.ClosedFormByRecurrence | bernstein_poly_01.py:15 | The recurrence value equals C(n, k) times the power product (1−x)^(n−k) x^k built factor by factor. |
| Poly01.ClosedForm | bernstein_poly_01.py:15 | B(n, k)(x) = C(n, k) (1−x)^(n−k) x^k for 0 ≤ k ≤ n. |
| Poly01.MonomialPow | bernstein_poly_01.py:15 | The factor-by-factor power product is (1−x)^(n−k) x^k. |
| Poly01.RowSumStep | bernstein_poly_01.py:86-90 | One recurrence step leaves the sum of a row unchanged: Σ_k B(n, k) = Σ_k B(n−1, k), because x S + (1−x) S = S. |
| Poly01.PartitionOfUnity | bernstein_poly_01.py:47-49 | Σ_{k=0..n} B(n, k)(x) = 1 for every real x. |
| Poly01.PartitionOfUnitySeq | bernstein_poly_01.py:47-49 | The entries of the basis vector sum to 1. |
| Poly01.Nonnegative | bernstein_poly_01.py:83-90 | For 0 ≤ x ≤ 1, every B(n, k)(x) ≥ 0. |
| Poly01.AtZero | bernstein_poly_01.py:43 | At x = 0 the basis is e_0: B(n, k)(0) = δ(k, 0). |
| Poly01.AtOne | bernstein_poly_01.py:43 | At x = 1 the basis is e_n: B(n, k)(1) = δ(k, n). |
| Poly01.AtHalf | bernstein_poly_01.py:45 | B(n, k)(1/2) = C(n, k) / 2^n. |
| PolyAb.BernsteinPolyAb | bernstein_poly_ab.py:63-86 | a == b fails with DegenerateInterval, and only then. Otherwise the result has length n + 1 and equals the basis on [a, b] at x. For n = 0 it is [1] whatever a, b and x are. |
| PolyAb.RaiseDegreeAb | bernstein_poly_ab.py:80-84 | One outer-loop pass on [a, b] raises slots 0..i−1 from degree i−1 to degree i. Slots above i are unchanged. |
| PolyAb.SweepAb | bernstein_poly_ab.py:82-83 | The downward inner loop sets slots 1..i to degree i and leaves slot 0 at degree i−1. |
| PolyAb.EdgesAb | bernstein_poly_ab.py:81-84 | The top slot is (x−a) p[i−1]/(b−a), and slot 0 is (b−x) p[0]/(b−a). |
| PolyAb.BernsteinAb | bernstein_poly_ab.py:80-84 | The definition of the basis on [a, b]: 0 for k outside 0..n, 1 for n = 0, and otherwise ((b−x) B(n−1, k) + (x−a) B(n−1, k−1))/(b−a), the update the sweep applies. Its contract: for x between a and b no value exceeds 1. |
| PolyAb.BasisAb | bernstein_poly_ab.py:58 | The basis vector on [a, b] has n + 1 entries, and entry k is the recurrence value there. |
| PolyAb.WeightedIsBlend | bernstein_poly_ab.py:83 | The [a, b] update ((b−x) v + (x−a) u)/(b−a) is the [0, 1] update at t = (x−a)/(b−a). |
| PolyAb.AffineInvariance | bernstein_poly_ab.py:116-119 | The basis on [a, b] at x equals the basis on [0, 1] at (x−a)/(b−a). |
| PolyAb.SameRelativePosition | bernstein_poly_ab.py:117-152 | Two intervals and points with the same relative position have equal basis values. |
| PolyAb.UnitInterval | bernstein_poly_ab.py:77-84 | With a = 0 and b = 1, the basis on [a, b] is the basis on [0, 1]. |
| PolyAb.ClosedFormAb | bernstein_poly_ab.py:11 | B(n, k)(x) (b−a)^n = C(n, k) (b−x)^(n−k) (x−a)^k. |
| PolyAb.PartitionOfUnityAb | bernstein_poly_ab.py:77-84 | For a ≠ b, the entries sum to 1 at every x. |
| PolyAb.NonnegativeAb | bernstein_poly_ab.py:77-84 | For x between a and b (in either order), every entry is ≥ 0. |
| PolyAb.EndpointsAb | bernstein_poly_ab.py:77-84 | At x = a the basis is e_0, and at x = b it is e_n. |
| PolyAb.UnitPointBetween | bernstein_poly_ab.py:77-78 | For x between a and b, the relative position (x−a)/(b−a) lies in [0, 1]. |
| Poly01Matrix.BernsteinPoly01Matrix | bernstein_poly_01_matrix.py:78-97 | The result is m × (n+1), and row i is the degree-n basis at x[i]. |
| Poly01Matrix.FillRow | bernstein_poly_01_matrix.py:82-95 | Filling row i writes the basis at x[i] into that row and leaves every other row unchanged. |
| Poly01Matrix.RaiseRowDegree | bernstein_poly_01_matrix.py:91-95 | One pass over j raises row i from degree j−1 to degree j. It touches nothing else in the array. |
| Poly01Matrix.BasisRows | bernstein_poly_01_matrix.py:73-74 | There are m rows, and row i is the basis at x[i]. |
| Poly01Matrix.DegreeZeroColumn | bernstein_poly_01_matrix.py:82-84 | For n = 0, every row is [1]. |
| Poly01Matrix.RowSums | bernstein_poly_01_matrix.py:47-49 | Every row sums to 1. |
| Poly01Matrix.EndpointRows | bernstein_poly_01_matrix.py:43 | A row at x[i] = 0 is e_0, and a row at x[i] = 1 is e_n. |
| PolyAbApprox.BernsteinPolyAbApprox | bernstein_poly_ab_approx.py:76-88 | It fails exactly when Refusal says so. Otherwise the output has length nval, and yval[i] = Σ_k ydata[k] B_ab(n, k)(xval[i]). |
| PolyAbApprox.Refusal | bernstein_poly_ab_approx.py:78-86 | The evaluation fails only if the loop runs (nval > 0) and either a == b (the basis evaluator's fatal error) or ydata does not have n + 1 entries (the dot product's mismatch). a == b is reported first. |
| PolyAbApprox.Approximant | bernstein_poly_ab_approx.py:86 | The definition of the value at x: the dot product Σ_k ydata[k] B_ab(n, k)(x) of the data with the basis on [a, b]. It has no contract of its own; the lemmas below state its properties. |
| PolyAbApprox.Bounded | bernstein_poly_ab_approx.py:86 | For x between a and b, the approximant lies between any lower and upper bounds of the data: it is a convex combination of the data values. |
| PolyAbApprox.DegreeZero | bernstein_poly_ab_approx.py:59-61 | For n = 0 the approximant is the constant ydata[0]. |
| PolyAbApprox.ConstantData | bernstein_poly_ab_approx.py:11 | Constant data c gives the constant c at every point. |
| PolyAbApprox.Linear | bernstein_poly_ab_approx.py:86 | The approximant is linear in the data: data c y + d z gives c·approx(y) + d·approx(z). |
| PolyAbApprox.Endpoints | bernstein_poly_ab_approx.py:11-16 | The approximant is ydata[0] at x = a and ydata[n] at x = b. |
| BMatrix.BernsteinMatrix | bernstein_matrix.py:52-59 | The result is n × n and equals the Bernstein matrix. |
| BMatrix.FillColumn | bernstein_matrix.py:55-57 | Column j receives its entries in rows 0..j and keeps its zeros below. Other columns are unchanged. |
| BMatrix.AsMatrix | bernstein_matrix.py:56-57 | Entry (i, j) is (−1)^(j−i) C(n−1−i, j−i) C(n−1, i) for i ≤ j, and 0 otherwise. |
| BMatrix.Triangular | bernstein_matrix.py:52-57 | The matrix is zero below the diagonal. |
| BMatrix.Diagonal | bernstein_matrix.py:56-57 | The diagonal entry (i, i) is C(n−1, i). |
| BMatrix.FirstRow | bernstein_matrix.py:24 | Row 0 is (−1)^j C(n−1, j). |
| BMatrix.Corner | bernstein_matrix.py:28 | Entry (n−1, n−1) is 1. |
| BMatrix.OrderFive | bernstein_matrix.py:22-28 | The order-5 matrix is exactly the documented example. |
| BMatrixInverse.BernsteinMatrixInverse | bernstein_matrix_inverse.py:52-58 | The result is n × n and equals the inverse matrix. |
| BMatrixInverse.FillColumn | bernstein_matrix_inverse.py:54-56 | Column j receives C(j, i)/C(n−1, i) in rows 0..j and keeps its zeros below. Other columns are unchanged. |
| BMatrixInverse.AsMatrix | bernstein_matrix_inverse.py:56 | Entry (i, j) is C(j, i)/C(n−1, i) for i ≤ j, and 0 otherwise. |
| BMatrixInverse.DivisorPositive | bernstein_matrix_inverse.py:56 | The divisor C(n−1, i) is never 0. |
| BMatrixInverse.Triangular | bernstein_matrix_inverse.py:52-56 | The matrix is zero below the diagonal. |
| BMatrixInverse.Diagonal | bernstein_matrix_inverse.py:56 | The diagonal entry is 1/C(n−1, i). |
| BMatrixInverse.Ones | bernstein_matrix_inverse.py:25-29 | Row 0 and column n−1 are all ones. |
| BMatrixInverse.OrderFive | bernstein_matrix_inverse.py:23-29 | The order-5 matrix is exactly the documented example, where 0.1667 is 1/6. |
| BMatrixInverse.InverseRelation | bernstein_matrix_inverse.py:103-104 | The Bernstein matrix times its inverse is the identity, for every n. |
| BMatrixInverse.ProductEntry | bernstein_matrix_inverse.py:103 | Row i of the Bernstein matrix against column j of the inverse sums to δ(i, j). |
| BMatrixInverse.TermValue | bernstein_matrix_inverse.py:56 | For i ≤ k ≤ j, the k-th term of that product is C(j, i) (−1)^(k−i) C(j−i, k−i). |
| BMatrixDeterminant.BernsteinMatrixDeterminant | bernstein_matrix_determinant.py:29-33 | The accumulated value is Π_{i=0..n−1} C(n−1, i). |
| BMatrixDeterminant.Positive | bernstein_matrix_determinant.py:31 | The value is strictly positive. |
| BMatrixDeterminant.SmallOrders | bernstein_matrix_determinant.py:29-31 | n = 0 (the empty product) and n = 1 both give 1. |
| BMatrixDeterminant.IsDeterminant | bernstein_matrix_determinant.py:70-74 | The value equals the determinant of the Bernstein matrix, computed by cofactor expansion. |
| Matrices.DetUpperTriangular | bernstein_matrix_determinant.py:74 | The determinant of an upper-triangular matrix is the product of its diagonal. |
| BToPower.BernsteinToPower | bernstein_to_power.py:53-60 | The result is (n+1) × (n+1) and equals the Bernstein-to-power matrix. |
| BToPower.FillToPowerColumn | bernstein_to_power.py:56-58 | For one j, all entries A[n−i, n−j] with i ≤ j are written into column n−j. Other columns are unchanged. |
| BToPower.ToPowerAt | bernstein_to_power.py:57-58 | The value written at A[n−i, n−j] is (−1)^(j−i) C(n−i, j−i) C(n, i). |
| BToPower.PowerToBernstein | bernstein_to_power.py:159-165 | The result is (n+1) × (n+1) and equals the power-to-Bernstein matrix. |
| BToPower.FillToBernsteinColumn | bernstein_to_power.py:162-163 | For one j, all entries A[n−i, n−j] with i ≤ j are written into column n−j. Other columns are unchanged. |
| BToPower.ToBernsteinAt | bernstein_to_power.py:163 | The value written at A[n−i, n−j] is C(j, i)/C(n, i). |
| BToPower.LowerTriangular | bernstein_to_power.py:53-57 | Both matrices are zero above the diagonal. |
| BToPower.ToPowerReversed | bernstein_to_power.py:57-58 | Entry (r, c) of the Bernstein-to-power matrix is entry (n−r, n−c) of the Bernstein matrix of order n+1. |
| BToPower.ToBernsteinReversed | bernstein_to_power.py:163 | Entry (r, c) of the power-to-Bernstein matrix is entry (n−r, n−c) of the inverse Bernstein matrix of order n+1. |
| BToPower.LastRowOnes | bernstein_to_power.py:129 | The last row of the power-to-Bernstein matrix is all ones. |
| BToPower.ToPowerOrderFour | bernstein_to_power.py:16-22 | The degree-4 Bernstein-to-power matrix is exactly the documented matrix. |
| BToPower.ToBernsteinOrderFour | bernstein_to_power.py:123-129 | The degree-4 power-to-Bernstein matrix is exactly the documented one, except that the last entry of row 3 is 0 (see Left out). |
| BToPower.ToPowerExample | bernstein_to_power.py:24-29 | The degree-4 matrix maps (0, 3/4, 1/2, 0, 0) to (0, 3, −6, 3, 0). |
| BToPower.ToBernsteinExample | bernstein_to_power.py:131-136 | The degree-4 inverse maps (0, 3, −6, 3, 0) back to (0, 3/4, 1/2, 0, 0). |
| BToPower.RoundTrip | bernstein_to_power.py:92-99 | Bernstein-to-power times power-to-Bernstein is the identity of order n + 1. |
| BToPower.ProductEntry | bernstein_to_power.py:98 | One entry of that product is δ(r, c). |
| BLegendre.BernsteinToLegendre | bernstein_to_legendre.py:38-49 | The result is (n+1) × (n+1) and equals the Bernstein-to-Legendre matrix. |
| BLegendre.ToLegendreRow | bernstein_to_legendre.py:41-47 | Row i receives its entries. Other rows are unchanged. |
| BLegendre.ToLegendreCell | bernstein_to_legendre.py:42-47 | Cell (i, j) ends as the accumulated sum times C(n, j)(2i+1)/(n+i+1). No other cell changes. |
| BLegendre.ToLegendreSum | bernstein_to_legendre.py:42-45 | The k loop leaves Σ_{k=0..i} (−1)^(i+k) C(i, k)² / C(n+i, j+k) in cell (i, j). |
| BLegendre.ToLegendreAdd | bernstein_to_legendre.py:43-45 | One k step adds term k to cell (i, j) and changes nothing else. |
| BLegendre.ToLegendreMatrix | bernstein_to_legendre.py:40-47 | The matrix is (n+1) × (n+1), and every entry is the documented sum formula. |
| BLegendre.Denominators | bernstein_to_legendre.py:45-47 | Every divisor C(n+i, j+k) and n+i+1 is non-zero. |
| BLegendre.ToLegendreFirstRow | bernstein_to_legendre.py:46-47 | Row 0 is all 1/(n+1). |
| BLegendre.LegendreToBernstein | bernstein_to_legendre.py:134-144 | The result is (n+1) × (n+1) and equals the Legendre-to-Bernstein matrix. |
| BLegendre.ToBernsteinRow | bernstein_to_legendre.py:137-142 | Row i receives its entries. Other rows are unchanged. |
| BLegendre.ToBernsteinCell | bernstein_to_legendre.py:138-142 | Cell (i, j) ends as the accumulated sum divided by C(n, i). No other cell changes. |
| BLegendre.ToBernsteinSum | bernstein_to_legendre.py:138-141 | The k loop over max(0, i+j−n)..min(i, j) leaves Σ (−1)^(j+k) C(j, k)² C(n−j, i−k) in cell (i, j). |
| BLegendre.ToBernsteinAdd | bernstein_to_legendre.py:139-141 | One k step adds term k to cell (i, j) and changes nothing else. |
| BLegendre.ToBernsteinMatrix | bernstein_to_legendre.py:136-142 | The matrix is (n+1) × (n+1), and every entry is the documented sum formula. |
| BLegendre.ToBernsteinFirstColumn | bernstein_to_legendre.py:138-142 | Column 0 is all ones. |
| BLegendre.ToLegendreReflect | bernstein_to_legendre.py:40-47 | For every degree n and all i, j: entry (i, n−j) is (−1)^i times entry (i, j). Reflecting x to 1−x sends B(n, j) to B(n, n−j) and the shifted Legendre polynomial of degree i to (−1)^i times itself, so odd rows are antisymmetric and even rows symmetric. |
| BLegendre.ToBernsteinReflect | bernstein_to_legendre.py:136-142 | For every degree n and all i, j: entry (n−i, j) is (−1)^j times entry (i, j), the same reflection seen from the Legendre side. |
| Combinatorics.ChooseSymmetric | bernstein_to_legendre.py:46 | C(n, k) = C(n, n−k) for all integers n and k. This makes the scale factors of columns j and n−j (rows i and n−i) agree. |
| Algebra.SumReflect | bernstein_to_legendre.py:42-45 | A sum whose terms, read backwards, are p times those of another sum equals p times that sum. It carries the term-wise reflection to the entries. |
| BLegendre.DegreeZero | bernstein_to_legendre.py:40-47 | For n = 0 both matrices are [[1]]. |
| BLegendre.OrderOne | bernstein_to_legendre.py:40-47 | For n = 1 the two matrices are [[1/2, 1/2], [−1/2, 1/2]] and [[1, −1], [1, 1]]. |
| BLegendre.ToLegendreOrderTwo | bernstein_to_legendre.py:40-47 | For n = 2 the Bernstein-to-Legendre matrix is [[1/3, 1/3, 1/3], [−1/2, 0, 1/2], [1/6, −1/3, 1/6]]. |
| BLegendre.ToBernsteinOrderTwo | bernstein_to_legendre.py:136-142 | For n = 2 the Legendre-to-Bernstein matrix is [[1, −1, 1], [1, 0, −2], [1, 1, 1]]. |
| BLegendre.SmallRoundTrip | bernstein_to_legendre.py:81-88 | For n ≤ 2, Bernstein-to-Legendre times Legendre-to-Bernstein is the identity. |
| BLegendreFive.ToLegendreFiveMatrix | bernstein_to_legendre.py:80-82 | For degree 5 the Bernstein-to-Legendre matrix is the 6 × 6 matrix `ToLegendreFive`, entry by entry, e.g. row 5 is [−1/252, 5/252, −5/126, 5/126, −5/252, 1/252]. |
| BLegendreFive.ToBernsteinFiveMatrix | bernstein_to_legendre.py:84-85 | For degree 5 the Legendre-to-Bernstein matrix is the 6 × 6 matrix `ToBernsteinFive`, e.g. row 2 is [1, −1/5, −4/5, 4/5, 2, −10]. |
| BLegendreFive.ProductFive | bernstein_to_legendre.py:87-88 | `ToLegendreFive` times `ToBernsteinFive` is the identity of order 6. |
| BLegendreFive.RoundTripFive | bernstein_to_legendre.py:80-88 | For n = 5, the degree the module's demonstration multiplies, Bernstein-to-Legendre times Legendre-to-Bernstein is exactly the identity, so the printed error norm ‖A·B − I‖ is zero in exact arithmetic. |
| BVandermonde.BernsteinVandermonde | bernstein_vandermonde.py:36-48 | The result is n × n and equals the Vandermonde matrix. That covers the order-1 early return with [[1]] and, for n ≥ 2, row i copied from the basis at i/(n−1). |
| BVandermonde.CopyRow | bernstein_vandermonde.py:45-46 | Row i receives b. Other rows are unchanged. |
| BVandermonde.VandermondeMatrix | bernstein_vandermonde.py:36-46 | The matrix is n × n. Order 0 is empty, order 1 is [[1]], and otherwise row i is the degree n−1 basis at i/(n−1). |
| BVandermonde.OrderOneAgrees | bernstein_vandermonde.py:38-40 | The order-1 special case agrees with the general rule: the degree-0 basis is [1]. |
| BVandermonde.NodeBounds | bernstein_vandermonde.py:43 | Every node i/(n−1) lies in [0, 1]. The first node is 0 and the last is 1. |
| BVandermonde.RowSums | bernstein_vandermonde.py:44 | Every row sums to 1. |
| BVandermonde.EntriesNonnegative | bernstein_vandermonde.py:43-44 | Every entry is ≥ 0. |
| BVandermonde.EndRows | bernstein_vandermonde.py:43 | Row 0 is e_0 and row n−1 is e_(n−1). |
| Combinatorics.ChooseRevision | bernstein_matrix_inverse.py:56 | C(n, k) C(k, j) = C(n, j) C(n−j, k−j): the identity that collapses each term of the inverse product. |
| Combinatorics.AlternatingSum | bernstein_matrix_inverse.py:103-104 | Σ_t (−1)^t C(d, t) is 1 for d = 0 and 0 for d > 0. This is why the product is the identity. |

## Left out

- PythonApplication1.py is not part of this model. It is an interactive plotting script (console input, matplotlib) with no computation that the library routines do not already cover.
- The `*_test` functions and the `__main__` blocks only print and time. They also call helpers that are not part of this model (`bernstein_poly_01_values`, `r8_uniform_01`, `r8mat_print`, `r8mat_is_identity`, `r8mat_norm_fro`). Their checks appear here as exact lemmas instead:
  - the test's tolerance check that A·B is close to the identity becomes A·B = I exactly;
  - `np.linalg.det` becomes the exact cofactor-expansion determinant `Matrices.Det`.
- Floating-point rounding: all arithmetic is exact `real`.
- `r8_choose` and `r8_mop` are not part of this model; they are supplied as `Choose` and `Mop`. `np.dot` of two vectors, of a matrix with a vector, and of two matrices is modelled by `Dot`, `MatVec` and `MatMul`.
- Degrees and orders are `nat` throughout; negative arguments are not modelled. In the library they behave in three different ways. `bernstein_matrix_determinant` returns 1.0 for every n ≤ 0, because its loop runs zero times (bernstein_matrix_determinant.py:29-33). The routines that allocate n + 1 slots return an empty array for n = −1. Every other negative size makes the numpy allocation fail.
- On a == b, `sys.exit` terminates the process. It is modelled as a `Failure(DegenerateInterval)` result, returned before any division, as in the source. The diagnostic printing is left out.
- Analytic claims that need calculus are not modelled: the uniform and pointwise convergence of the approximant, and the unique maximum of B(n, k) at k/n.
- BLegendre.SmallRoundTrip: the product of the two Legendre conversion matrices is proved to be the identity only for n ≤ 2 and, in `BLegendreFive.RoundTripFive`, for n = 5. A proof for every n needs the orthogonality of the shifted Legendre polynomials, which is not modelled. For every n, the model proves the reflection symmetry of both matrices (`ToLegendreReflect` and `ToBernsteinReflect`), the constant first row and the constant first column.
- BMatrixInverse.InverseRelation: only the product A·B (Bernstein matrix times its inverse) is proved to be the identity, which is what the library's test checks. The left-inverse relation B·A = I is not stated.
- BToPower.RoundTrip: likewise, only Bernstein-to-power times power-to-Bernstein is proved, in the order the test multiplies them.
- The change-of-basis meaning of the matrices is not modelled: no polynomial is evaluated from its power-basis coefficients. The model states the entries, the inverse relations and the worked examples.
- The doc comments disagree about which direction each conversion goes (bernstein_matrix.py:11-15 against bernstein_matrix.py:125-128). The model states properties of the entries the code computes, not of that prose.
- The documented degree-4 power-to-Bernstein matrix shows 1 as the last entry of row 3 (bernstein_to_power.py:128). The code at bernstein_to_power.py:163 writes nothing there, so it stays 0 (the entry lies above the diagonal). `BToPower.ToBernsteinOrderFour` states the code's 0, and the worked example at bernstein_to_power.py:131-136 holds with it.
- The recurrence is the definition of B(n, k) (`Poly01.Bernstein`), because it is what the code computes. The documented closed form is proved of it (`Poly01.ClosedForm`, `PolyAb.ClosedFormAb`).
