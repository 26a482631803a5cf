# Vectors and matrices over exact reals

This project models a small linear-algebra library. Vectors are lists of numbers and matrices are lists of rows. The model has three modules:

- `LinearAlgebra` (LinearAlgebra.dfy) covers:
  - element-wise `add` and `subtract`;
  - `scalar_multiply`;
  - the reductions `vector_sum` and `vector_mean`;
  - `dot`, `sum_of_squares` and `squared_distance`;
  - `magnitude` and `distance`, stated as relations over their squared forms.
- `Matrices` (Matrices.dfy) covers:
  - `shape`, `get_row` and `get_col`;
  - the builder `make_matrix`;
  - `identity_matrix`, which is built with `make_matrix`.
- `RealArith` (RealArith.dfy) holds facts about products of reals that the proofs need. It does not model anything in the library.

Every operation in the library is a pure function, so the model is made of functions and lemmas.

How the library's behaviour is represented:

- Numbers are exact `real`s.
- A failed shape `assert` becomes a `Result` value: `Err(ShapeMismatch)` for vectors of different lengths, `Err(EmptyInput)` for an empty list of vectors.
- Python's `zip` is `Zip`, which stops at the end of the shorter vector.
- Python's `sum` is `Sum`, a left fold starting at 0.
- `range(n)` for a negative `n` yields nothing. `RangeLength` models that.

Main results:

- `subtract` undoes `add`, and `add` undoes `subtract`.
- `vector_sum` is `add` folded over the list.
- `vector_mean` fails exactly when `vector_sum` does, with the same error. Scaled back by the number of vectors, the mean is the sum. The mean of k copies of v is v.
- `dot` looks only at the common prefix of its operands. It is commutative and linear in its first argument.
- `sum_of_squares` is non-negative and is zero only for the zero vector.
- `squared_distance` is symmetric and is zero exactly for equal vectors.
- `shape` of a built matrix is `(rows, max(cols, 0))` when there is at least one row.
- The row view and the column view of a matrix agree on every entry.
- The identity matrix is symmetric, and its row i equals its column i. In a dot product with any vector that has an element i, row i of the n-by-n identity picks out that element.

Two behaviours of `shape` (Matrices.py:14) are worth noting. Its docstring (Matrices.py:9) promises only "number of rows, number of columns" and says nothing about either case:

- `shape` looks only at row 0. Applied to `make_matrix(0, c, f)` it therefore returns `(0, 0)`, not `(0, c)`. `Matrices.ShapeOfMakeMatrix` states both cases.
- `shape` of a ragged matrix reports the width of its first row (`Matrices.ShapeOfRaggedMatrix`).

## Model

| member | source | states |
|---|---|---|
| LinearAlgebra.SumAppend | LinearAlgebra.py:99 | `sum` is a left fold from 0: appending x to s adds x to the sum |
| LinearAlgebra.SumNonNegative | LinearAlgebra.py:113 | a sum of non-negative terms is non-negative |
| LinearAlgebra.SumZeroIff | LinearAlgebra.py:113 | a sum of non-negative terms is zero exactly when every term is |
| LinearAlgebra.SumConstant | LinearAlgebra.py:58 | n copies of x sum to x * n |
| LinearAlgebra.SumSingleTerm | LinearAlgebra.py:99 | a sum whose other terms are all zero is its one remaining term |
| LinearAlgebra.Zip | LinearAlgebra.py:20 | `zip` pairs elements index by index and has the length of the shorter vector |
| LinearAlgebra.Add | LinearAlgebra.py:18-20 | fails with a shape mismatch exactly when the lengths differ; otherwise same length, element k is v[k] + w[k] |
| LinearAlgebra.Subtract | LinearAlgebra.py:35-37 | fails with a shape mismatch exactly when the lengths differ; otherwise same length, element k is v[k] - w[k] |
| LinearAlgebra.SubtractUndoesAdd | LinearAlgebra.py:18-37 | subtract(add(v, w), w) == v for vectors of one length |
| LinearAlgebra.AddUndoesSubtract | LinearAlgebra.py:18-37 | add(subtract(v, w), w) == v for vectors of one length |
| LinearAlgebra.AddCommutative | LinearAlgebra.py:18-20 | add(v, w) and add(w, v) agree, including on failure |
| LinearAlgebra.SumOfAdd | LinearAlgebra.py:20 | the sum of an element-wise sum is the sum of the two sums |
| LinearAlgebra.ScalarMultiply | LinearAlgebra.py:72 | never fails, keeps the length, element k is v[k] * c |
| LinearAlgebra.ScalarMultiplyDistributes | LinearAlgebra.py:72 | scaling distributes over add |
| LinearAlgebra.ScaleByInverses | LinearAlgebra.py:72 | scaling by c and then by its reciprocal gives the vector back (used with c = n and c = 1/n for `vector_mean`) |
| LinearAlgebra.SumOfScalarMultiply | LinearAlgebra.py:72 | the sum of a scaled vector is the scaled sum |
| LinearAlgebra.SameLengths | LinearAlgebra.py:54-55 | every vector having the first one's length is the same as all vectors having one common length |
| LinearAlgebra.Components | LinearAlgebra.py:58 | element i of every vector, one per vector, in list order |
| LinearAlgebra.VectorSum | LinearAlgebra.py:51-58 | EmptyInput exactly for the empty list; ShapeMismatch exactly when some vector's length differs from the first's; otherwise the length of the first vector, and element i is the sum of every vector's element i |
| LinearAlgebra.VectorSumSingle | LinearAlgebra.py:51-58 | the sum of a one-vector list is that vector |
| LinearAlgebra.SameLengthsAppend | LinearAlgebra.py:55 | appending u keeps all lengths equal exactly when they were and u has the first vector's length |
| LinearAlgebra.VectorSumAppendValue | LinearAlgebra.py:58 | for well-shaped lists, the sum of vectors + [u] is add(sum of vectors, u) |
| LinearAlgebra.VectorSumAppend | LinearAlgebra.py:51-58 | vector_sum equals add folded over the list: each appended vector is added to the running sum, and every failure is the one add or the earlier prefix reports |
| LinearAlgebra.VectorSumOfCopies | LinearAlgebra.py:51-58 | the sum of k >= 1 copies of v is v scaled by k |
| LinearAlgebra.VectorMean | LinearAlgebra.py:85-86 | fails exactly when vector_sum fails, with the same error, so an empty list is reported as empty before any division by n; otherwise it has the first vector's length and, scaled by the number of vectors, is vector_sum's result |
| LinearAlgebra.MeanOfCopies | LinearAlgebra.py:85-86 | the mean of k >= 1 copies of v is v |
| LinearAlgebra.Products | LinearAlgebra.py:99 | the paired products have the length of the shorter vector |
| LinearAlgebra.ProductAt | LinearAlgebra.py:99 | the k-th paired product is v[k] * w[k] |
| LinearAlgebra.Dot | LinearAlgebra.py:99 | there is no length check: when either operand is empty the result is 0, not an error |
| LinearAlgebra.DotTruncates | LinearAlgebra.py:99 | dot(v, w) is the sum of the paired products over the common prefix of v and w; the longer vector's tail is ignored |
| LinearAlgebra.DotIsSumOfProducts | LinearAlgebra.py:92-99 | dot(v, w) is v[0] * w[0] + ... + v[m-1] * w[m-1], m being the length of the shorter vector |
| LinearAlgebra.DotCommutative | LinearAlgebra.py:99 | dot(v, w) == dot(w, v) |
| LinearAlgebra.ProductsOfAdd | LinearAlgebra.py:99 | the paired products of add(u, v) with w are the element-wise sums of the products of u and of v with w |
| LinearAlgebra.DotAdd | LinearAlgebra.py:99 | dot(add(u, v), w) == dot(u, w) + dot(v, w) |
| LinearAlgebra.ScaledProductAt | LinearAlgebra.py:99 | scaling element k of the first operand by c scales the k-th paired product by c |
| LinearAlgebra.ProductsOfScalarMultiply | LinearAlgebra.py:99 | the paired products of scalar_multiply(u, c) with w are the products of u with w, scaled by c |
| LinearAlgebra.DotScalarMultiply | LinearAlgebra.py:99 | dot(scalar_multiply(u, c), w) == dot(u, w) * c; with DotAdd, dot is linear in its first argument |
| LinearAlgebra.SumOfSquares | LinearAlgebra.py:113 | sum_of_squares(v) is dot(v, v) and is never negative |
| LinearAlgebra.SumOfSquaresZeroIff | LinearAlgebra.py:113 | the sum of squares is zero exactly when every element is zero |
| LinearAlgebra.SquaredDistance | LinearAlgebra.py:136 | fails with a shape mismatch exactly when the lengths differ (the check subtract makes); otherwise a non-negative value |
| LinearAlgebra.SquaredDistanceIsSumOfSquaredDifferences | LinearAlgebra.py:129-136 | for vectors of one length, the squared distance is (v[0] - w[0])^2 + ... + (v[n-1] - w[n-1])^2 |
| LinearAlgebra.SquaredDifferenceAt | LinearAlgebra.py:136 | the square of v[k] - w[k] is the square of w[k] - v[k] |
| LinearAlgebra.SquaredDistanceSymmetric | LinearAlgebra.py:136 | squared_distance(v, w) == squared_distance(w, v), including on failure |
| LinearAlgebra.SquaredDistanceZeroIff | LinearAlgebra.py:136 | for vectors of one length, the squared distance is zero exactly when they are equal |
| LinearAlgebra.IsMagnitude | LinearAlgebra.py:126 | m is the non-negative square root of the sum of squares; such an m is zero exactly when the sum of squares is |
| LinearAlgebra.IsDistance | LinearAlgebra.py:146 | d is the non-negative square root of the squared distance, which exists only for vectors of one length; such a d is zero exactly when the squared distance is |
| LinearAlgebra.MagnitudeUnique | LinearAlgebra.py:126 | the non-negative square root of the sum of squares is unique |
| LinearAlgebra.MagnitudeZeroIff | LinearAlgebra.py:126 | the magnitude is zero exactly for the all-zero vector |
| LinearAlgebra.DistanceSymmetric | LinearAlgebra.py:146 | distance(v, w) is also distance(w, v) |
| LinearAlgebra.DistanceZeroIff | LinearAlgebra.py:146 | the distance is zero exactly when the vectors are equal |
| LinearAlgebra.AddExamples | LinearAlgebra.py:13-16 | the documented sums, and a shape mismatch for lengths 2 and 3 |
| LinearAlgebra.SubtractExamples | LinearAlgebra.py:29-32 | the documented differences |
| LinearAlgebra.VectorSumExamples | LinearAlgebra.py:45-46 | [[1,2,3],[4,5,6],[7,8,9]] sums to [12,15,18]; the empty list is EmptyInput |
| LinearAlgebra.VectorMeanExample | LinearAlgebra.py:80-81 | the mean of [[1,2],[3,4],[5,6]] is [3,4] |
| LinearAlgebra.ScalarMultiplyExample | LinearAlgebra.py:67-70 | the two documented scalings |
| LinearAlgebra.DotExamples | LinearAlgebra.py:96-97 | dot([1,2,3],[4,5,6]) == 32, and dot([1,2,3],[4,5]) == 14 because zip truncates |
| LinearAlgebra.SumOfSquaresExamples | LinearAlgebra.py:108-111 | the documented sums of squares 14 and 77 |
| Matrices.RangeLength | Matrices.py:51-52 | range(n) has n elements, and none when n <= 0 |
| Matrices.Shape | Matrices.py:13-16 | the row count, and the length of row 0 as the column count; (0, 0) for the empty matrix |
| Matrices.ShapeOfRectangular | Matrices.py:13-16 | a non-empty matrix whose rows all have length cols has shape (rows, cols) |
| Matrices.ShapeOfRaggedMatrix | Matrices.py:14 | only row 0 is consulted: a ragged matrix gets its first row's width |
| Matrices.GetRow | Matrices.py:27 | row i, for 0 <= i < number of rows |
| Matrices.GetCol | Matrices.py:37 | one entry per row, in row order, entry i being A[i][j] |
| Matrices.RowColumnAgree | Matrices.py:27-37 | get_col(A, j)[i] == get_row(A, i)[j] == A[i][j] |
| Matrices.VectorSumIsColumnSums | Matrices.py:37 | for a well-shaped list of vectors, element j of vector_sum is the sum of column j |
| Matrices.MakeMatrix | Matrices.py:50-52 | max(rows, 0) rows, each of length max(cols, 0), with entry (i, j) equal to entry_fn(i, j) |
| Matrices.ShapeOfMakeMatrix | Matrices.py:50-52 | the shape of a built matrix is (rows, max(cols, 0)) when rows > 0 and (0, 0) otherwise |
| Matrices.IdentityEntry | Matrices.py:63 | one exactly on the diagonal, zero exactly off it |
| Matrices.IdentityMatrix | Matrices.py:63 | n-by-n (empty for n <= 0), with entry (i, j) one when i == j and zero otherwise |
| Matrices.ShapeOfIdentity | Matrices.py:63 | the identity has shape (n, n) for n > 0 and (0, 0) otherwise |
| Matrices.IdentityIsSymmetric | Matrices.py:63 | the identity is square and symmetric |
| Matrices.IdentityRowIsColumn | Matrices.py:63 | row i and column i of the identity are the same vector |
| Matrices.IdentityRowSelects | Matrices.py:63 | row i of the identity is the i-th unit vector: its dot product with any v longer than i is v[i], whatever the length of v |
| Matrices.IdentityExamples | Matrices.py:60-61 | the documented 6-by-6 identity, and the documented make_matrix call equal to the 5-by-5 identity |

## Left out

- Floating point: IEEE rounding, NaN and infinities are not modelled. All arithmetic is exact over `real`, so for example `vector_mean`'s `1/n` is exact.
- Python's int and float distinction is not modelled. Every entry is a `real`.
- `math.sqrt` is not modelled. `magnitude` and `distance` become the predicates `IsMagnitude` and `IsDistance`: a non-negative number whose square is the sum of squares (or the squared distance). No square root is computed.
- The `__main__` blocks only print, so they are not modelled.
- Exception types and messages are not modelled. A failed `assert` in `add`, `subtract` and `vector_sum` is the `Err` case of `Result`.
- Running Python with `-O` strips those `assert`s. That mode is not modelled.
- `get_row` and `get_col` raise IndexError for an index out of range. The model makes the index a precondition instead of an error value.
- Python's negative indices are not modelled, because indices are `nat`.
- Aliasing between a returned row and the stored row cannot be observed on immutable sequences, so it is not modelled.
- `make_matrix` accepts any callable in Python. The model's entry function must be total and return a `real`.
- `vector_sum`'s second docstring example and `vector_mean`'s second docstring example are not restated as lemmas. The first examples cover the same code paths.
