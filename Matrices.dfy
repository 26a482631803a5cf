/**
 Matrices as lists of rows: the shape of a matrix, its rows and columns, the
 generic builder that fills a matrix from an entry function, and the identity
 matrix built with it.
 */
module Matrices {

  import opened LinearAlgebra

  type Matrix = seq<Vector>

  /** The number of indices `range(n)` yields: none when n is zero or less. */
  function RangeLength(n: int): (len: nat)
    ensures n >= 0 ==> len == n
    ensures n <= 0 ==> len == 0
  {
    if n < 0 then 0 else n
  }

  /** Every one of the rows rows of A has length cols. */
  predicate IsRectangular(A: Matrix, rows: nat, cols: nat)
  {
    |A| == rows && forall i :: 0 <= i < |A| ==> |A[i]| == cols
  }

  /** A is square and its entry (i, j) is its entry (j, i). */
  predicate IsSymmetric(A: Matrix)
  {
    IsRectangular(A, |A|, |A|) &&
    forall i, j :: 0 <= i < |A| && 0 <= j < |A| ==> A[i][j] == A[j][i]
  }

  // ---------------------------------------------------------------------------
  // shape, get_row, get_col
  // ---------------------------------------------------------------------------

  /** `shape`: the number of rows, and the length of row 0 as the number of
      columns; an empty matrix has shape (0, 0). The other rows are not
      looked at. */
  function Shape(A: Matrix): (s: (nat, nat))
    ensures s.0 == |A|
    ensures A == [] ==> s == (0, 0)
    ensures A != [] ==> s.1 == |A[0]|
  {
    (|A|, if A != [] then |A[0]| else 0)
  }

  /** On a non-empty rectangular matrix the shape is its dimensions. */
  lemma ShapeOfRectangular(A: Matrix, rows: nat, cols: nat)
    requires IsRectangular(A, rows, cols) && rows > 0
    ensures Shape(A) == (rows, cols)
  {
    assert |A[0]| == cols;
  }

  /** Only row 0 decides the number of columns: a ragged matrix gets the
      width of its first row. */
  lemma ShapeOfRaggedMatrix()
    ensures Shape([[1.0], [1.0, 2.0, 3.0]]) == (2, 1)
    ensures !IsRectangular([[1.0], [1.0, 2.0, 3.0]], 2, 1)
  {
    var A: Matrix := [[1.0], [1.0, 2.0, 3.0]];
    assert |A[1]| == 3;
  }

  /** `get_row`: row i of A, for an index in range. */
  function GetRow(A: Matrix, i: nat): (row: Vector)
    requires i < |A|
    ensures row == A[i]
  {
    A[i]
  }

  /** `get_col`: entry j of every row, in row order; every row must be long
      enough. */
  function GetCol(A: Matrix, j: nat): (col: Vector)
    requires forall i :: 0 <= i < |A| ==> j < |A[i]|
    ensures |col| == Shape(A).0
    ensures forall i :: 0 <= i < |A| ==> col[i] == A[i][j]
  {
    Components(A, j)
  }

  /** The row view and the column view see the same entry. */
  lemma RowColumnAgree(A: Matrix, i: nat, j: nat)
    requires i < |A|
    requires forall r :: 0 <= r < |A| ==> j < |A[r]|
    ensures GetCol(A, j)[i] == GetRow(A, i)[j] == A[i][j]
  {
  }

  /** Column j of a list of vectors is what `vector_sum` adds up at index j. */
  lemma VectorSumIsColumnSums(A: Matrix, j: nat)
    requires VectorSum(A).Ok? && j < |A[0]|
    ensures forall r :: 0 <= r < |A| ==> j < |A[r]|
    ensures VectorSum(A).value[j] == Sum(GetCol(A, j))
  {
    assert SameLengths(A);
  }

  // ---------------------------------------------------------------------------
  // make_matrix and identity_matrix
  // ---------------------------------------------------------------------------

  /** `make_matrix`: row i, for i in range(rows), holds entry(i, j) for j in
      range(cols). A count of zero or less gives no rows (or empty rows). */
  function MakeMatrix(rows: int, cols: int, entry: (int, int) -> real): (A: Matrix)
    ensures IsRectangular(A, RangeLength(rows), RangeLength(cols))
    ensures forall i, j :: 0 <= i < |A| && 0 <= j < |A[i]| ==> A[i][j] == entry(i, j)
  {
    seq(RangeLength(rows), i => seq(RangeLength(cols), j => entry(i, j)))
  }

  /** The shape of a built matrix is (rows, cols) as long as there is at least
      one row; with no rows the columns are lost and the shape is (0, 0). */
  lemma ShapeOfMakeMatrix(rows: int, cols: int, entry: (int, int) -> real)
    ensures Shape(MakeMatrix(rows, cols, entry)) ==
              if rows > 0 then (rows as nat, RangeLength(cols)) else (0, 0)
  {
    var A := MakeMatrix(rows, cols, entry);
    if rows > 0 {
      ShapeOfRectangular(A, rows, RangeLength(cols));
    }
  }

  /** The identity entry: one on the diagonal, zero elsewhere. */
  function IdentityEntry(i: int, j: int): (e: real)
    ensures e == 1.0 <==> i == j
    ensures e == 0.0 <==> i != j
  {
    if i == j then 1.0 else 0.0
  }

  /** `identity_matrix`: the n-by-n matrix built from the identity entry. */
  function IdentityMatrix(n: int): (I: Matrix)
    ensures IsRectangular(I, RangeLength(n), RangeLength(n))
    ensures forall i, j :: 0 <= i < |I| && 0 <= j < |I| ==> I[i][j] == IdentityEntry(i, j)
  {
    MakeMatrix(n, n, IdentityEntry)
  }

  lemma ShapeOfIdentity(n: int)
    ensures Shape(IdentityMatrix(n)) == if n > 0 then (n as nat, n as nat) else (0, 0)
  {
    ShapeOfMakeMatrix(n, n, IdentityEntry);
  }

  lemma IdentityIsSymmetric(n: int)
    ensures IsSymmetric(IdentityMatrix(n))
  {
  }

  /** Row i and column i of the identity are the same vector. */
  lemma IdentityRowIsColumn(n: int, i: nat)
    requires i < n
    ensures GetRow(IdentityMatrix(n), i) == GetCol(IdentityMatrix(n), i)
  {
    var I := IdentityMatrix(n);
    var row, col := GetRow(I, i), GetCol(I, i);
    forall j | 0 <= j < |I|
      ensures row[j] == col[j]
    {
      assert row[j] == IdentityEntry(i, j) && col[j] == IdentityEntry(j, i);
    }
  }

  /** Row i of the identity is the unit vector for i: its dot product with
      any vector that reaches index i picks out element i. The vector may be
      shorter or longer than n, since `dot` stops at the shorter operand. */
  lemma IdentityRowSelects(n: int, i: nat, v: Vector)
    requires i < n && i < |v|
    ensures Dot(GetRow(IdentityMatrix(n), i), v) == v[i]
  {
    var row := GetRow(IdentityMatrix(n), i);
    var p := Products(row, v);
    forall k | 0 <= k < |p|
      ensures p[k] == if k == i then v[i] else 0.0
    {
      ProductAt(row, v, k);
    }
    SumSingleTerm(p, i);
  }

  /** The documented six-by-six identity, which is also what the documented
      `make_matrix` call builds at five by five. */
  lemma IdentityExamples()
    ensures IdentityMatrix(6) == [
      [1.0, 0.0, 0.0, 0.0, 0.0, 0.0],
      [0.0, 1.0, 0.0, 0.0, 0.0, 0.0],
      [0.0, 0.0, 1.0, 0.0, 0.0, 0.0],
      [0.0, 0.0, 0.0, 1.0, 0.0, 0.0],
      [0.0, 0.0, 0.0, 0.0, 1.0, 0.0],
      [0.0, 0.0, 0.0, 0.0, 0.0, 1.0]]
    ensures MakeMatrix(5, 5, (i, j) => if i == j then 1.0 else 0.0) == IdentityMatrix(5)
  {
    var I := IdentityMatrix(6);
    var E: Matrix := [
      [1.0, 0.0, 0.0, 0.0, 0.0, 0.0],
      [0.0, 1.0, 0.0, 0.0, 0.0, 0.0],
      [0.0, 0.0, 1.0, 0.0, 0.0, 0.0],
      [0.0, 0.0, 0.0, 1.0, 0.0, 0.0],
      [0.0, 0.0, 0.0, 0.0, 1.0, 0.0],
      [0.0, 0.0, 0.0, 0.0, 0.0, 1.0]];
    forall i | 0 <= i < 6
      ensures I[i] == E[i]
    {
      assert I[i][i] == 1.0;
    }
    var F := MakeMatrix(5, 5, (i, j) => if i == j then 1.0 else 0.0);
    var I5 := IdentityMatrix(5);
    forall i | 0 <= i < 5
      ensures F[i] == I5[i]
    {
      assert forall j :: 0 <= j < 5 ==> F[i][j] == I5[i][j];
    }
  }
}
