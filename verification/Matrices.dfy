/** Two-by-two matrices, and when a symmetric one is positive semidefinite. */
module Matrices {

  datatype Matrix = Matrix(a: real, b: real, c: real, d: real) {

    function Times(m: Matrix): Matrix {
      Matrix(a * m.a + b * m.c, a * m.b + b * m.d, c * m.a + d * m.c, c * m.b + d * m.d)
    }

    function Plus(m: Matrix): Matrix {
      Matrix(a + m.a, b + m.b, c + m.c, d + m.d)
    }

    function Transposed(): Matrix {
      Matrix(a, c, b, d)
    }

    /** The quadratic form of a symmetric matrix at the vector (u, v). */
    function Form(u: real, v: real): real {
      u * u * a + u * v * b + u * v * c + v * v * d
    }

    /** Symmetric and positive semidefinite: the form is nowhere negative. */
    ghost predicate Covariance() {
      b == c && forall u: real, v: real :: Form(u, v) >= 0.0
    }
  }

  function Diagonal(a: real, d: real): Matrix {
    Matrix(a, 0.0, 0.0, d)
  }

  lemma {:induction false} SquareNonNegative(x: real)
    ensures x * x >= 0.0
  {
  }

  lemma {:induction false} ProductNonNegative(x: real, y: real)
    requires x >= 0.0 && y >= 0.0
    ensures x * y >= 0.0
  {
  }

  /** A matrix is a covariance exactly when it is symmetric with non-negative diagonal and determinant. */
  lemma {:induction false} CovarianceIffDeterminant(m: Matrix)
    ensures m.Covariance() <==> m.b == m.c && m.a >= 0.0 && m.d >= 0.0 && m.a * m.d >= m.b * m.b
  {
    if m.Covariance() {
      assert m.Form(1.0, 0.0) == m.a && m.Form(0.0, 1.0) == m.d;
      DeterminantFromForm(m);
    }
    if m.b == m.c && m.a >= 0.0 && m.d >= 0.0 && m.a * m.d >= m.b * m.b {
      forall u: real, v: real ensures m.Form(u, v) >= 0.0 {
        FormFromDeterminant(m, u, v);
      }
    }
  }

  lemma {:induction false} FactorNonNegative(a: real, f: real)
    requires a > 0.0 && a * f >= 0.0
    ensures f >= 0.0
  {
  }

  lemma {:induction false} CompletedSquare(a: real, b: real, d: real, u: real, v: real)
    ensures a * (u * u * a + u * v * b + u * v * b + v * v * d) == (a * u + b * v) * (a * u + b * v) + (a * d - b * b) * (v * v)
  {
  }

  lemma {:induction false} FlatRowVanishes(m: Matrix)
    requires m.Covariance() && m.a == 0.0
    ensures m.b == 0.0
  {
    var u := Probe(m.b, m.d);
    assert m.Form(u, 1.0) == u * m.b + u * m.b + m.d;
  }

  ghost function Probe(b: real, d: real): (u: real)
    ensures b != 0.0 ==> u * b == -(d + 1.0) / 2.0
  {
    if b == 0.0 then 0.0 else -(d + 1.0) / (2.0 * b)
  }

  lemma {:induction false} DeterminantFromForm(m: Matrix)
    requires m.Covariance() && m.a >= 0.0
    ensures m.a * m.d >= m.b * m.b
  {
    if m.a > 0.0 {
      CompletedSquare(m.a, m.b, m.d, -m.b, m.a);
      var f := m.Form(-m.b, m.a);
      assert m.a * -m.b + m.b * m.a == 0.0;
      assert m.a * f == (m.a * m.d - m.b * m.b) * (m.a * m.a);
      assert m.a * f == m.a * (m.a * (m.a * m.d - m.b * m.b));
      ProductNonNegative(m.a, f);
      FactorNonNegative(m.a, m.a * (m.a * m.d - m.b * m.b));
      FactorNonNegative(m.a, m.a * m.d - m.b * m.b);
    } else {
      FlatRowVanishes(m);
    }
  }

  lemma {:induction false} FormFromDeterminant(m: Matrix, u: real, v: real)
    requires m.b == m.c && m.a >= 0.0 && m.d >= 0.0 && m.a * m.d >= m.b * m.b
    ensures m.Form(u, v) >= 0.0
  {
    SquareNonNegative(v);
    if m.a > 0.0 {
      CompletedSquare(m.a, m.b, m.d, u, v);
      SquareNonNegative(m.a * u + m.b * v);
      ProductNonNegative(m.a * m.d - m.b * m.b, v * v);
      FactorNonNegative(m.a, m.Form(u, v));
    } else {
      SquareNonNegative(m.b);
      var y := m.b * m.b;
      assert y <= 0.0 && y >= 0.0;
      SquareZero(m.b);
      ProductNonNegative(v * v, m.d);
    }
  }

  lemma {:induction false} SquareZero(x: real)
    requires x * x == 0.0
    ensures x == 0.0
  {
    var m := -x;
    assert x * m == 0.0 && m * x == 0.0;
    if x > 0.0 {
      FactorNonNegative(x, m);
    } else if x < 0.0 {
      FactorNonNegative(m, x);
    }
  }
}
