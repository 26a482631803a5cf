/**
 Facts about products of reals, each stated over named operands so that a
 caller can hand over the product it already has.
 */
module RealArith {

  /** s is x + y, so s * c is x * c + y * c. */
  lemma MulDistributes(x: real, y: real, c: real, s: real)
    requires s == x + y
    ensures s * c == x * c + y * c
  {
  }

  lemma Reciprocal(c: real)
    requires c != 0.0
    ensures c * (1.0 / c) == 1.0 && (1.0 / c) * c == 1.0
  {
  }

  /** z is x scaled by c and then by d, where d is the reciprocal of c. */
  lemma MulByInverses(x: real, c: real, d: real, y: real, z: real)
    requires c * d == 1.0 && y == x * c && z == y * d
    ensures z == x
  {
    assert z == x * c * d;
    assert x * c * d == x * (c * d);
  }

  lemma MulCommutes(x: real, y: real)
    ensures x * y == y * x
  {
  }

  /** a is x * c and b is x * y, so a * y and b * c are the same product. */
  lemma MulRotate(x: real, c: real, y: real, a: real, b: real)
    requires a == x * c && b == x * y
    ensures a * y == b * c
  {
    assert a * y == x * c * y;
    assert b * c == x * y * c;
  }

  lemma SquareOfNegation(a: real, b: real)
    requires b == -a
    ensures a * a == b * b
  {
    assert b * b == (-a) * (-a);
  }

  lemma SquareNonNegative(x: real)
    ensures x * x >= 0.0
  {
  }

  /** The product of two negative numbers is positive. */
  lemma MulNegatives(a: real, b: real)
    requires a < 0.0 && b < 0.0
    ensures a * b > 0.0
  {
    assert (-a) * (-b) == a * b;
    MulLtLeft(-a, 0.0, -b);
  }

  /** y is x, so x * y is zero only for x == 0. */
  lemma ProductOfEqualZero(x: real, y: real)
    requires y == x && x * y == 0.0
    ensures x == 0.0
  {
    if x > 0.0 {
      MulLtLeft(x, 0.0, y);
    } else if x < 0.0 {
      MulNegatives(x, y);
    }
  }

  /** m, the square of x, is never negative and is zero only for x == 0. */
  lemma SquareFacts(x: real, m: real)
    requires m == x * x
    ensures m >= 0.0
    ensures m == 0.0 <==> x == 0.0
  {
    SquareNonNegative(x);
    if m == 0.0 {
      ProductOfEqualZero(x, x);
    }
  }

  lemma MulLtLeft(a: real, b: real, c: real)
    requires a > 0.0 && b < c
    ensures a * b < a * c
  {
  }

  lemma SquareMonotone(a: real, b: real)
    requires 0.0 <= a < b
    ensures a * a < b * b
  {
    MulLtLeft(b - a, 0.0, b + a);
    assert (b - a) * (b + a) == b * b - a * a;
  }

  /** A non-negative square root is unique. */
  lemma SquareRootUnique(a: real, b: real)
    requires a >= 0.0 && b >= 0.0 && a * a == b * b
    ensures a == b
  {
    if a < b {
      SquareMonotone(a, b);
      assert false;
    }
    if b < a {
      SquareMonotone(b, a);
      assert false;
    }
  }
}
