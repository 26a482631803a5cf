/**
 Vector arithmetic over exact reals: element-wise addition and subtraction,
 scaling, sums and means of lists of vectors, the dot product, sums of
 squares and squared distances.

 A vector is a sequence of reals. The shape checks the library performs with
 `assert` are modelled as a `Result` whose error says which check failed.
 */
module LinearAlgebra {

  import opened RealArith

  type Vector = seq<real>

  /** The two ways an operation can reject its operands. */
  datatype Error =
    | ShapeMismatch  // two vectors that must have the same length do not
    | EmptyInput     // a list of vectors that must not be empty is

  datatype Result<T> = Ok(value: T) | Err(error: Error)

  function Min(a: int, b: int): (m: int)
    ensures m <= a && m <= b
    ensures m == a || m == b
  {
    if a <= b then a else b
  }

  /** n copies of x. */
  function Repeat<T>(x: T, n: nat): (s: seq<T>)
    ensures |s| == n
    ensures forall k :: 0 <= k < n ==> s[k] == x
  {
    seq(n, _ => x)
  }

  // ---------------------------------------------------------------------------
  // Built-ins the library leans on: zip and sum
  // ---------------------------------------------------------------------------

  /** Python's `zip` on two vectors: pairs up elements and stops at the end of
      the shorter one. */
  function Zip(v: Vector, w: Vector): (z: seq<(real, real)>)
    ensures |z| == Min(|v|, |w|)
    ensures forall k :: 0 <= k < |z| ==> z[k] == (v[k], w[k])
  {
    if v == [] || w == [] then [] else [(v[0], w[0])] + Zip(v[1..], w[1..])
  }

  /** Python's `sum`: adds the elements from left to right, starting at 0.
      Its properties are the lemmas that follow. */
  function Sum(s: seq<real>): (r: real)
  {
    if s == [] then 0.0 else Sum(s[..|s| - 1]) + s[|s| - 1]
  }

  /** Appending a term adds it to the sum: `sum` is a left fold. */
  lemma SumAppend(s: seq<real>, x: real)
    ensures Sum(s + [x]) == Sum(s) + x
  {
    assert (s + [x])[..|s|] == s;
  }

  /** A sum of non-negative terms is non-negative. */
  lemma {:induction false} SumNonNegative(s: seq<real>)
    requires forall k :: 0 <= k < |s| ==> s[k] >= 0.0
    ensures Sum(s) >= 0.0
  {
    if s != [] {
      SumNonNegative(s[..|s| - 1]);
    }
  }

  /** A sum of non-negative terms is zero exactly when every term is. */
  lemma {:induction false} SumZeroIff(s: seq<real>)
    requires forall k :: 0 <= k < |s| ==> s[k] >= 0.0
    ensures Sum(s) == 0.0 <==> forall k :: 0 <= k < |s| ==> s[k] == 0.0
  {
    if s != [] {
      var init := s[..|s| - 1];
      SumZeroIff(init);
      SumNonNegative(init);
      assert forall k :: 0 <= k < |init| ==> init[k] == s[k];
    }
  }

  /** Adding up n copies of x gives n * x. */
  lemma {:induction false} SumConstant(n: nat, x: real)
    ensures Sum(Repeat(x, n)) == x * n as real
  {
    if n > 0 {
      SumConstant(n - 1, x);
      assert Repeat(x, n)[..n - 1] == Repeat(x, n - 1);
    }
  }

  /** A sum whose terms are all zero except the one at i equals that term. */
  lemma {:induction false} SumSingleTerm(s: seq<real>, i: nat)
    requires i < |s|
    requires forall k :: 0 <= k < |s| && k != i ==> s[k] == 0.0
    ensures Sum(s) == s[i]
  {
    var init := s[..|s| - 1];
    if i == |s| - 1 {
      assert forall k :: 0 <= k < |init| ==> init[k] == 0.0;
      SumZeroIff(init);
    } else {
      SumSingleTerm(init, i);
    }
  }

  /** The sum of an element-wise sum is the sum of the two sums. */
  lemma {:induction false} SumOfAdd(s: Vector, t: Vector)
    requires |s| == |t|
    ensures Sum(Add(s, t).value) == Sum(s) + Sum(t)
  {
    if s != [] {
      var n := |s| - 1;
      SumOfAdd(s[..n], t[..n]);
      AddPrefix(s, t, n);
    }
  }

  /** Scaling every term scales the sum. */
  lemma {:induction false} SumOfScalarMultiply(s: Vector, c: real)
    ensures Sum(ScalarMultiply(s, c)) == Sum(s) * c
  {
    if s != [] {
      var n := |s| - 1;
      var scaled := ScalarMultiply(s, c);
      SumOfScalarMultiply(s[..n], c);
      ScalarMultiplyPrefix(s, c, n);
      var init, last, total := Sum(s[..n]), s[n], Sum(s);
      assert total == init + last;
      assert Sum(scaled) == init * c + scaled[n];
      assert scaled[n] == last * c;
      MulDistributes(init, last, c, total);
    }
  }

  // ---------------------------------------------------------------------------
  // Element-wise operations
  // ---------------------------------------------------------------------------

  /** `add`: element-wise sum of two vectors of the same length. */
  function Add(v: Vector, w: Vector): (r: Result<Vector>)
    ensures r.Ok? <==> |v| == |w|
    ensures r.Err? ==> r.error == ShapeMismatch
    ensures r.Ok? ==> |r.value| == |v| && forall k :: 0 <= k < |v| ==> r.value[k] == v[k] + w[k]
  {
    if |v| != |w| then Err(ShapeMismatch)
    else
      var z := Zip(v, w);
      Ok(seq(|z|, k requires 0 <= k < |z| => z[k].0 + z[k].1))
  }

  /** `subtract`: element-wise difference of two vectors of the same length. */
  function Subtract(v: Vector, w: Vector): (r: Result<Vector>)
    ensures r.Ok? <==> |v| == |w|
    ensures r.Err? ==> r.error == ShapeMismatch
    ensures r.Ok? ==> |r.value| == |v| && forall k :: 0 <= k < |v| ==> r.value[k] == v[k] - w[k]
  {
    if |v| != |w| then Err(ShapeMismatch)
    else
      var z := Zip(v, w);
      Ok(seq(|z|, k requires 0 <= k < |z| => z[k].0 - z[k].1))
  }

  /** Subtracting w undoes adding w. */
  lemma SubtractUndoesAdd(v: Vector, w: Vector)
    requires |v| == |w|
    ensures Subtract(Add(v, w).value, w) == Ok(v)
  {
    assert Subtract(Add(v, w).value, w).value == v;
  }

  /** Adding w undoes subtracting w. */
  lemma AddUndoesSubtract(v: Vector, w: Vector)
    requires |v| == |w|
    ensures Add(Subtract(v, w).value, w) == Ok(v)
  {
    assert Add(Subtract(v, w).value, w).value == v;
  }

  lemma AddCommutative(v: Vector, w: Vector)
    ensures Add(v, w) == Add(w, v)
  {
    if |v| == |w| {
      assert Add(v, w).value == Add(w, v).value;
    }
  }

  /** `scalar_multiply`: every element times c; never fails. */
  function ScalarMultiply(v: Vector, c: real): (r: Vector)
    ensures |r| == |v|
    ensures forall k :: 0 <= k < |v| ==> r[k] == v[k] * c
  {
    seq(|v|, k requires 0 <= k < |v| => v[k] * c)
  }

  lemma AddPrefix(v: Vector, w: Vector, n: nat)
    requires |v| == |w| && n <= |v|
    ensures Add(v, w).value[..n] == Add(v[..n], w[..n]).value
  {
    var sum := Add(v, w).value;
    forall k | 0 <= k < n
      ensures sum[..n][k] == Add(v[..n], w[..n]).value[k]
    {
      assert v[..n][k] == v[k] && w[..n][k] == w[k];
    }
  }

  lemma ScalarMultiplyPrefix(v: Vector, c: real, n: nat)
    requires n <= |v|
    ensures ScalarMultiply(v, c)[..n] == ScalarMultiply(v[..n], c)
  {
    var scaled := ScalarMultiply(v, c);
    forall k | 0 <= k < n
      ensures scaled[..n][k] == ScalarMultiply(v[..n], c)[k]
    {
      assert v[..n][k] == v[k];
    }
  }

  /** Scaling distributes over addition. */
  lemma ScalarMultiplyDistributes(v: Vector, w: Vector, c: real)
    requires |v| == |w|
    ensures Add(ScalarMultiply(v, c), ScalarMultiply(w, c)) == Ok(ScalarMultiply(Add(v, w).value, c))
  {
    var lhs, rhs := Add(ScalarMultiply(v, c), ScalarMultiply(w, c)).value, ScalarMultiply(Add(v, w).value, c);
    forall k | 0 <= k < |v|
      ensures lhs[k] == rhs[k]
    {
      ScaledSumAt(v, w, c, k);
    }
    assert lhs == rhs;
  }

  lemma ScaledSumAt(v: Vector, w: Vector, c: real, k: nat)
    requires |v| == |w| && k < |v|
    ensures ScalarMultiply(Add(v, w).value, c)[k] == ScalarMultiply(v, c)[k] + ScalarMultiply(w, c)[k]
  {
    var x, y, sum := v[k], w[k], Add(v, w).value[k];
    assert sum == x + y;
    MulDistributes(x, y, c, sum);
  }

  /** Scaling by c and then by its reciprocal d gives the vector back. */
  lemma ScaleByInverses(v: Vector, c: real, d: real)
    requires c * d == 1.0
    ensures ScalarMultiply(ScalarMultiply(v, c), d) == v
  {
    var scaled := ScalarMultiply(v, c);
    var back := ScalarMultiply(scaled, d);
    forall k | 0 <= k < |v|
      ensures back[k] == v[k]
    {
      MulByInverses(v[k], c, d, scaled[k], back[k]);
    }
  }

  // ---------------------------------------------------------------------------
  // Reductions over a list of vectors
  // ---------------------------------------------------------------------------

  /** Every vector in the list has the length of the first one. */
  predicate SameLengths(vectors: seq<Vector>): (b: bool)
    ensures b <==> forall j, k :: 0 <= j < |vectors| && 0 <= k < |vectors| ==> |vectors[j]| == |vectors[k]|
  {
    forall j :: 0 <= j < |vectors| ==> |vectors[j]| == |vectors[0]|
  }

  /** Element i of every vector, in list order. */
  function Components(vectors: seq<Vector>, i: nat): (c: seq<real>)
    requires forall j :: 0 <= j < |vectors| ==> i < |vectors[j]|
    ensures |c| == |vectors|
    ensures forall j :: 0 <= j < |vectors| ==> c[j] == vectors[j][i]
  {
    seq(|vectors|, j requires 0 <= j < |vectors| => vectors[j][i])
  }

  /** `vector_sum`: the component-wise sum of a non-empty list of vectors of
      one length. The emptiness check comes first; the first vector's length
      is the one the others must match. */
  function VectorSum(vectors: seq<Vector>): (r: Result<Vector>)
    ensures r == Err(EmptyInput) <==> vectors == []
    ensures r == Err(ShapeMismatch) <==> vectors != [] && !SameLengths(vectors)
    ensures r.Ok? <==> vectors != [] && SameLengths(vectors)
    ensures r.Ok? ==> |r.value| == |vectors[0]|
    ensures r.Ok? ==> forall i :: 0 <= i < |r.value| ==> r.value[i] == Sum(Components(vectors, i))
  {
    if vectors == [] then Err(EmptyInput)
    else
      var n := |vectors[0]|;
      if !SameLengths(vectors) then Err(ShapeMismatch)
      else Ok(seq(n, i requires 0 <= i < n => Sum(Components(vectors, i))))
  }

  /** The sum of a single vector is that vector. */
  lemma VectorSumSingle(v: Vector)
    ensures VectorSum([v]) == Ok(v)
  {
    assert SameLengths([v]);
    var s := VectorSum([v]).value;
    assert |s| == |v|;
    forall i | 0 <= i < |v|
      ensures s[i] == v[i]
    {
      assert Components([v], i) == [] + [v[i]];
      SumAppend([], v[i]);
    }
    assert s == v;
  }

  lemma ComponentsAppend(vectors: seq<Vector>, u: Vector, i: nat)
    requires forall j :: 0 <= j < |vectors| ==> i < |vectors[j]|
    requires i < |u|
    ensures Components(vectors + [u], i) == Components(vectors, i) + [u[i]]
  {
    var all := vectors + [u];
    assert forall j :: 0 <= j < |vectors| ==> all[j] == vectors[j];
    assert all[|vectors|] == u;
  }

  /** `vector_sum` is `add` folded over the list: the sum of vectors + [u]
      is the sum of vectors plus u, and a failure on the shorter list or a
      wrong length of u is a shape mismatch. */
  lemma VectorSumAppend(vectors: seq<Vector>, u: Vector)
    requires vectors != []
    ensures VectorSum(vectors + [u]) ==
              if VectorSum(vectors).Err? then VectorSum(vectors) else Add(VectorSum(vectors).value, u)
  {
    SameLengthsAppend(vectors, u);
    if SameLengths(vectors) && |u| == |vectors[0]| {
      VectorSumAppendValue(vectors, u);
    }
  }

  lemma SameLengthsAppend(vectors: seq<Vector>, u: Vector)
    requires vectors != []
    ensures SameLengths(vectors + [u]) <==> SameLengths(vectors) && |u| == |vectors[0]|
  {
    var all := vectors + [u];
    assert all[0] == vectors[0];
    assert forall j :: 0 <= j < |vectors| ==> all[j] == vectors[j];
    assert all[|vectors|] == u;
  }

  lemma VectorSumAppendValue(vectors: seq<Vector>, u: Vector)
    requires vectors != [] && SameLengths(vectors) && |u| == |vectors[0]|
    ensures VectorSum(vectors + [u]).Ok?
    ensures VectorSum(vectors + [u]).value == Add(VectorSum(vectors).value, u).value
  {
    SameLengthsAppend(vectors, u);
    var all := vectors + [u];
    assert all[0] == vectors[0];
    var s, t := VectorSum(vectors).value, VectorSum(all).value;
    forall i | 0 <= i < |u|
      ensures t[i] == s[i] + u[i]
    {
      ComponentsAppend(vectors, u, i);
      SumAppend(Components(vectors, i), u[i]);
    }
    assert t == Add(s, u).value;
  }

  /** `vector_mean`: the component-wise sum scaled by 1/n. It fails exactly
      when `vector_sum` does and with the same error, so an empty list is
      reported as empty before any division happens; scaled back by the
      number of vectors, the mean is the sum. */
  function VectorMean(vectors: seq<Vector>): (r: Result<Vector>)
    ensures r.Err? <==> VectorSum(vectors).Err?
    ensures r.Err? ==> r.error == VectorSum(vectors).error
    ensures r.Ok? ==> |r.value| == |vectors[0]|
    ensures r.Ok? ==> ScalarMultiply(r.value, |vectors| as real) == VectorSum(vectors).value
  {
    match VectorSum(vectors)
    case Err(e) => Err(e)
    case Ok(s) =>
      var n := |vectors| as real;
      Reciprocal(n);
      ScaleByInverses(s, 1.0 / n, n);
      Ok(ScalarMultiply(s, 1.0 / n))
  }

  lemma ComponentsOfCopies(v: Vector, k: nat, i: nat)
    requires i < |v|
    ensures Components(Repeat(v, k), i) == Repeat(v[i], k)
  {
  }

  /** The sum of k copies of v is v scaled by k. */
  lemma VectorSumOfCopies(v: Vector, k: nat)
    requires k >= 1
    ensures VectorSum(Repeat(v, k)) == Ok(ScalarMultiply(v, k as real))
  {
    var copies := Repeat(v, k);
    assert copies[0] == v;
    assert SameLengths(copies);
    var s := VectorSum(copies).value;
    assert |s| == |v|;
    forall i | 0 <= i < |v|
      ensures s[i] == v[i] * k as real
    {
      ComponentsOfCopies(v, k, i);
      SumConstant(k, v[i]);
    }
    assert s == ScalarMultiply(v, k as real);
  }

  /** The mean of k >= 1 copies of v is v. */
  lemma MeanOfCopies(v: Vector, k: nat)
    requires k >= 1
    ensures VectorMean(Repeat(v, k)) == Ok(v)
  {
    var copies := Repeat(v, k);
    var n := k as real;
    VectorSumOfCopies(v, k);
    var m := VectorMean(copies).value;
    assert |copies| as real == n;
    assert ScalarMultiply(m, n) == ScalarMultiply(v, n);
    Reciprocal(n);
    ScaleByInverses(m, n, 1.0 / n);
    ScaleByInverses(v, n, 1.0 / n);
  }

  // ---------------------------------------------------------------------------
  // Dot product and the quantities built on it
  // ---------------------------------------------------------------------------

  /** The products of the pairs that `zip` makes of v and w. */
  function Products(v: Vector, w: Vector): (p: seq<real>)
    ensures |p| == Min(|v|, |w|)
  {
    var z := Zip(v, w);
    seq(|z|, k requires 0 <= k < |z| => z[k].0 * z[k].1)
  }

  lemma ProductAt(v: Vector, w: Vector, k: nat)
    requires k < |v| && k < |w|
    ensures Products(v, w)[k] == v[k] * w[k]
  {
  }

  /** `dot`: the sum of the products of paired elements. There is no length
      check: `zip` stops at the shorter vector. */
  function Dot(v: Vector, w: Vector): (r: real)
    ensures v == [] || w == [] ==> r == 0.0
  {
    Sum(Products(v, w))
  }

  lemma ZipPrefix(v: Vector, w: Vector, m: nat)
    requires m == Min(|v|, |w|)
    ensures Zip(v, w) == Zip(v[..m], w[..m])
  {
    var z, y := Zip(v, w), Zip(v[..m], w[..m]);
    forall k | 0 <= k < m
      ensures z[k] == y[k]
    {
      assert v[..m][k] == v[k] && w[..m][k] == w[k];
    }
  }

  /** The dot product only sees the common prefix of its two operands. */
  lemma DotTruncates(v: Vector, w: Vector)
    ensures var m := Min(|v|, |w|); Dot(v, w) == Sum(Products(v[..m], w[..m]))
  {
    ZipPrefix(v, w, Min(|v|, |w|));
  }

  /** The documented formula: v[0] * w[0] + ... + v[m-1] * w[m-1], where m is
      the length of the shorter operand. */
  lemma DotIsSumOfProducts(v: Vector, w: Vector)
    ensures Dot(v, w) ==
              Sum(seq(Min(|v|, |w|), k requires 0 <= k < Min(|v|, |w|) => v[k] * w[k]))
  {
    var m := Min(|v|, |w|);
    var p := Products(v, w);
    var q := seq(Min(|v|, |w|), k requires 0 <= k < Min(|v|, |w|) => v[k] * w[k]);
    forall k | 0 <= k < m
      ensures p[k] == q[k]
    {
      ProductAt(v, w, k);
    }
    assert p == q;
    assert Dot(v, w) == Sum(q);
  }

  lemma DotCommutative(v: Vector, w: Vector)
    ensures Dot(v, w) == Dot(w, v)
  {
    var p, q := Products(v, w), Products(w, v);
    forall k | 0 <= k < |p|
      ensures p[k] == q[k]
    {
      ProductAt(v, w, k);
      ProductAt(w, v, k);
      MulCommutes(v[k], w[k]);
    }
    assert p == q;
  }

  lemma ProductsOfAdd(u: Vector, v: Vector, w: Vector)
    requires |u| == |v|
    ensures Products(Add(u, v).value, w) == Add(Products(u, w), Products(v, w)).value
  {
    var p, q := Products(Add(u, v).value, w), Add(Products(u, w), Products(v, w)).value;
    forall k | 0 <= k < |p|
      ensures p[k] == q[k]
    {
      ProductOfSumAt(u, v, w, k);
    }
    assert p == q;
  }

  lemma ProductOfSumAt(u: Vector, v: Vector, w: Vector, k: nat)
    requires |u| == |v| && k < |u| && k < |w|
    ensures Products(Add(u, v).value, w)[k] == Products(u, w)[k] + Products(v, w)[k]
  {
    var sum := Add(u, v).value;
    var a, b, c, s := u[k], v[k], w[k], sum[k];
    assert s == a + b;
    ProductAt(sum, w, k);
    ProductAt(u, w, k);
    ProductAt(v, w, k);
    MulDistributes(a, b, c, s);
  }

  /** The dot product is additive in its first argument ... */
  lemma DotAdd(u: Vector, v: Vector, w: Vector)
    requires |u| == |v|
    ensures Dot(Add(u, v).value, w) == Dot(u, w) + Dot(v, w)
  {
    ProductsOfAdd(u, v, w);
    SumOfAdd(Products(u, w), Products(v, w));
  }

  /** s is u with element k scaled by c, so their k-th products with w differ
      by the factor c. */
  lemma ScaledProductAt(u: Vector, s: Vector, w: Vector, c: real, k: nat)
    requires k < |u| && k < |s| && k < |w| && s[k] == u[k] * c
    ensures Products(s, w)[k] == Products(u, w)[k] * c
  {
    ProductAt(u, w, k);
    ProductAt(s, w, k);
    MulRotate(u[k], c, w[k], s[k], Products(u, w)[k]);
  }

  lemma ProductsOfScalarMultiply(u: Vector, w: Vector, c: real)
    ensures Products(ScalarMultiply(u, c), w) == ScalarMultiply(Products(u, w), c)
  {
    var scaled := ScalarMultiply(u, c);
    var p, q := Products(scaled, w), ScalarMultiply(Products(u, w), c);
    forall k | 0 <= k < |p|
      ensures p[k] == q[k]
    {
      ScaledProductAt(u, scaled, w, c, k);
    }
    assert p == q;
  }

  /** ... and homogeneous in it, so it is linear in its first argument. */
  lemma DotScalarMultiply(u: Vector, w: Vector, c: real)
    ensures Dot(ScalarMultiply(u, c), w) == Dot(u, w) * c
  {
    ProductsOfScalarMultiply(u, w, c);
    SumOfScalarMultiply(Products(u, w), c);
  }

  /** `sum_of_squares`: the dot product of v with itself, never negative. */
  function SumOfSquares(v: Vector): (r: real)
    ensures r == Dot(v, v)
    ensures r >= 0.0
  {
    var p := Products(v, v);
    forall k | 0 <= k < |p|
      ensures p[k] >= 0.0
    {
      ProductAt(v, v, k);
      SquareFacts(v[k], p[k]);
    }
    SumNonNegative(p);
    Dot(v, v)
  }

  /** The sum of squares is zero exactly for the all-zero vector. */
  lemma SumOfSquaresZeroIff(v: Vector)
    ensures SumOfSquares(v) == 0.0 <==> forall k :: 0 <= k < |v| ==> v[k] == 0.0
  {
    var p := Products(v, v);
    forall k | 0 <= k < |v|
      ensures p[k] >= 0.0 && (p[k] == 0.0 <==> v[k] == 0.0)
    {
      ProductAt(v, v, k);
      SquareFacts(v[k], p[k]);
    }
    SumZeroIff(p);
  }

  /** `squared_distance`: the sum of squares of the difference. Its only
      length check is the one `subtract` makes. */
  function SquaredDistance(v: Vector, w: Vector): (r: Result<real>)
    ensures r.Ok? <==> |v| == |w|
    ensures r.Err? ==> r.error == ShapeMismatch
    ensures r.Ok? ==> r.value >= 0.0
  {
    match Subtract(v, w)
    case Err(e) => Err(e)
    case Ok(d) => Ok(SumOfSquares(d))
  }

  lemma SquaredDistanceSymmetric(v: Vector, w: Vector)
    ensures SquaredDistance(v, w) == SquaredDistance(w, v)
  {
    if |v| == |w| {
      var d, e := Subtract(v, w).value, Subtract(w, v).value;
      var p, q := Products(d, d), Products(e, e);
      forall k | 0 <= k < |p|
        ensures p[k] == q[k]
      {
        SquaredDifferenceAt(v, w, k);
      }
      assert p == q;
    }
  }

  lemma SquaredDifferenceAt(v: Vector, w: Vector, k: nat)
    requires |v| == |w| && k < |v|
    ensures var d, e := Subtract(v, w).value, Subtract(w, v).value;
            Products(d, d)[k] == Products(e, e)[k]
  {
    var d, e := Subtract(v, w).value, Subtract(w, v).value;
    var x, y := d[k], e[k];
    assert y == -x;
    ProductAt(d, d, k);
    ProductAt(e, e, k);
    SquareOfNegation(x, y);
  }

  /** The squared distance is the sum of the squared element differences,
      (v[0] - w[0])^2 + ... + (v[n-1] - w[n-1])^2. */
  lemma SquaredDistanceIsSumOfSquaredDifferences(v: Vector, w: Vector)
    requires |v| == |w|
    ensures SquaredDistance(v, w).value ==
              Sum(seq(|v|, k requires 0 <= k < |v| => (v[k] - w[k]) * (v[k] - w[k])))
  {
    var d := Subtract(v, w).value;
    var p, q := Products(d, d), seq(|v|, k requires 0 <= k < |v| => (v[k] - w[k]) * (v[k] - w[k]));
    forall k | 0 <= k < |v|
      ensures p[k] == q[k]
    {
      var x := d[k];
      assert x == v[k] - w[k];
      ProductAt(d, d, k);
    }
    assert p == q;
  }

  /** Two vectors of one length are at squared distance zero exactly when
      they are equal. */
  lemma SquaredDistanceZeroIff(v: Vector, w: Vector)
    requires |v| == |w|
    ensures SquaredDistance(v, w) == Ok(0.0) <==> v == w
  {
    var d := Subtract(v, w).value;
    SumOfSquaresZeroIff(d);
    assert SquaredDistance(v, w) == Ok(SumOfSquares(d));
    assert (forall k :: 0 <= k < |v| ==> d[k] == 0.0) <==> v == w by {
      if forall k :: 0 <= k < |v| ==> d[k] == 0.0 {
        assert forall k :: 0 <= k < |v| ==> v[k] == w[k];
      }
    }
  }

  // ---------------------------------------------------------------------------
  // magnitude and distance, stated without a square root
  // ---------------------------------------------------------------------------

  /** m is what `magnitude(v)` denotes: the non-negative square root of the
      sum of squares. */
  predicate IsMagnitude(v: Vector, m: real): (b: bool)
    ensures b ==> (m == 0.0 <==> SumOfSquares(v) == 0.0)
  {
    SquareFacts(m, m * m);
    m >= 0.0 && m * m == SumOfSquares(v)
  }

  /** d is what `distance(v, w)` denotes: the non-negative square root of the
      squared distance. */
  predicate IsDistance(v: Vector, w: Vector, d: real): (b: bool)
    ensures b ==> |v| == |w|
    ensures b ==> (d == 0.0 <==> SquaredDistance(v, w).value == 0.0)
  {
    SquareFacts(d, d * d);
    SquaredDistance(v, w).Ok? && d >= 0.0 && d * d == SquaredDistance(v, w).value
  }

  /** The magnitude of a vector is determined by it. */
  lemma MagnitudeUnique(v: Vector, a: real, b: real)
    requires IsMagnitude(v, a) && IsMagnitude(v, b)
    ensures a == b
  {
    SquareRootUnique(a, b);
  }

  /** The magnitude is zero exactly for the all-zero vector. */
  lemma MagnitudeZeroIff(v: Vector, m: real)
    requires IsMagnitude(v, m)
    ensures m == 0.0 <==> forall k :: 0 <= k < |v| ==> v[k] == 0.0
  {
    SumOfSquaresZeroIff(v);
  }

  lemma DistanceSymmetric(v: Vector, w: Vector, d: real)
    requires IsDistance(v, w, d)
    ensures IsDistance(w, v, d)
  {
    SquaredDistanceSymmetric(v, w);
  }

  lemma DistanceZeroIff(v: Vector, w: Vector, d: real)
    requires IsDistance(v, w, d)
    ensures d == 0.0 <==> v == w
  {
    SquaredDistanceZeroIff(v, w);
  }

  // ---------------------------------------------------------------------------
  // The documented examples
  // ---------------------------------------------------------------------------

  lemma AddExamples()
    ensures Add([1.0, 2.0, 3.0], [4.0, 5.0, 6.0]) == Ok([5.0, 7.0, 9.0])
    ensures Add([7.0, 8.0, 9.0], [10.0, 11.0, 12.0]) == Ok([17.0, 19.0, 21.0])
    ensures Add([1.0, 2.0], [1.0, 2.0, 3.0]) == Err(ShapeMismatch)
  {
    assert Add([1.0, 2.0, 3.0], [4.0, 5.0, 6.0]).value == [5.0, 7.0, 9.0];
    assert Add([7.0, 8.0, 9.0], [10.0, 11.0, 12.0]).value == [17.0, 19.0, 21.0];
  }

  lemma SubtractExamples()
    ensures Subtract([1.0, 2.0, 3.0], [4.0, 5.0, 6.0]) == Ok([-3.0, -3.0, -3.0])
    ensures Subtract([7.0, 8.0, 9.0], [1.0, 3.0, 5.0]) == Ok([6.0, 5.0, 4.0])
  {
    assert Subtract([1.0, 2.0, 3.0], [4.0, 5.0, 6.0]).value == [-3.0, -3.0, -3.0];
    assert Subtract([7.0, 8.0, 9.0], [1.0, 3.0, 5.0]).value == [6.0, 5.0, 4.0];
  }

  lemma VectorSumExamples()
    ensures VectorSum([[1.0, 2.0, 3.0], [4.0, 5.0, 6.0], [7.0, 8.0, 9.0]]) == Ok([12.0, 15.0, 18.0])
    ensures VectorSum([]) == Err(EmptyInput)
  {
    var vs: seq<Vector> := [[1.0, 2.0, 3.0], [4.0, 5.0, 6.0], [7.0, 8.0, 9.0]];
    VectorSumSingle(vs[0]);
    assert vs[..1] == [vs[0]];
    VectorSumAppend(vs[..1], vs[1]);
    assert vs[..1] + [vs[1]] == vs[..2];
    assert Add([1.0, 2.0, 3.0], [4.0, 5.0, 6.0]).value == [5.0, 7.0, 9.0];
    assert VectorSum(vs[..2]) == Ok([5.0, 7.0, 9.0]);
    VectorSumAppend(vs[..2], vs[2]);
    assert vs[..2] + [vs[2]] == vs;
    assert Add([5.0, 7.0, 9.0], [7.0, 8.0, 9.0]).value == [12.0, 15.0, 18.0];
  }

  lemma VectorMeanExample()
    ensures VectorMean([[1.0, 2.0], [3.0, 4.0], [5.0, 6.0]]) == Ok([3.0, 4.0])
  {
    var vs: seq<Vector> := [[1.0, 2.0], [3.0, 4.0], [5.0, 6.0]];
    VectorSumSingle(vs[0]);
    assert vs[..1] == [vs[0]];
    VectorSumAppend(vs[..1], vs[1]);
    assert vs[..1] + [vs[1]] == vs[..2];
    assert Add([1.0, 2.0], [3.0, 4.0]).value == [4.0, 6.0];
    assert VectorSum(vs[..2]) == Ok([4.0, 6.0]);
    VectorSumAppend(vs[..2], vs[2]);
    assert vs[..2] + [vs[2]] == vs;
    assert Add([4.0, 6.0], [5.0, 6.0]).value == [9.0, 12.0];
    assert VectorSum(vs) == Ok([9.0, 12.0]);
    var m := VectorMean(vs).value;
    assert m[0] * 3.0 == 9.0 && m[1] * 3.0 == 12.0;
    assert m == [3.0, 4.0];
  }

  lemma ScalarMultiplyExample()
    ensures ScalarMultiply([1.0, 2.0, 3.0, 4.0, 5.0], 5.0) == [5.0, 10.0, 15.0, 20.0, 25.0]
    ensures ScalarMultiply([6.0, 7.0, 8.0, 9.0, 10.0], 3.0) == [18.0, 21.0, 24.0, 27.0, 30.0]
  {
  }

  /** The documented dot product, and what `zip` does when the lengths differ. */
  lemma DotExamples()
    ensures Dot([1.0, 2.0, 3.0], [4.0, 5.0, 6.0]) == 32.0
    ensures Dot([1.0, 2.0, 3.0], [4.0, 5.0]) == 14.0
  {
    var v, w := [1.0, 2.0, 3.0], [4.0, 5.0, 6.0];
    var p := Products(v, w);
    ProductAt(v, w, 0);
    ProductAt(v, w, 1);
    ProductAt(v, w, 2);
    assert p == [4.0, 10.0, 18.0];
    assert p[..2] == [4.0, 10.0] && p[..1] == [4.0] && p[..1][..0] == [];
    assert Sum(p[..1]) == 4.0;
    assert Sum(p[..2]) == 14.0;
    var u := [4.0, 5.0];
    var q := Products(v, u);
    ProductAt(v, u, 0);
    ProductAt(v, u, 1);
    assert q == [4.0, 10.0];
    assert q[..1] == [4.0] && q[..1][..0] == [];
    assert Sum(q[..1]) == 4.0;
  }

  lemma SumOfSquaresExamples()
    ensures SumOfSquares([1.0, 2.0, 3.0]) == 14.0
    ensures SumOfSquares([4.0, 5.0, 6.0]) == 77.0
  {
    var v := [1.0, 2.0, 3.0];
    var p := Products(v, v);
    ProductAt(v, v, 0);
    ProductAt(v, v, 1);
    ProductAt(v, v, 2);
    assert p == [1.0, 4.0, 9.0];
    assert p[..2] == [1.0, 4.0] && p[..1] == [1.0] && p[..1][..0] == [];
    assert Sum(p[..1]) == 1.0;
    assert Sum(p[..2]) == 5.0;
    var w := [4.0, 5.0, 6.0];
    var q := Products(w, w);
    ProductAt(w, w, 0);
    ProductAt(w, w, 1);
    ProductAt(w, w, 2);
    assert q == [16.0, 25.0, 36.0];
    assert q[..2] == [16.0, 25.0] && q[..1] == [16.0] && q[..1][..0] == [];
    assert Sum(q[..1]) == 16.0;
    assert Sum(q[..2]) == 41.0;
  }
}
