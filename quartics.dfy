/**
 * Polynomials of total degree at most 4 in two variables, given by their 15
 * coefficients. They are the reference the triangle Lagrange closed forms are
 * checked against: DX and DY are the formal partial derivatives, and ExpansionX
 * and ExpansionY show that they are the derivatives of the evaluated polynomial.
 */
module Quartics {
  import opened Power

  /** The coefficients of the polynomial: cPQ multiplies x^P y^Q. */
  datatype Coeffs = Coeffs(c00: real, c10: real, c01: real,
                           c20: real, c11: real, c02: real,
                           c30: real, c21: real, c12: real, c03: real,
                           c40: real, c31: real, c22: real, c13: real, c04: real)

  function Linear(a: real, b: real, x: real, y: real): real
  {
    a * x + b * y
  }

  function Quadratic(a: real, b: real, d: real, x: real, y: real): real
  {
    a * x * x + b * x * y + d * y * y
  }

  function Cubic(a: real, b: real, d: real, e: real, x: real, y: real): real
  {
    a * x * x * x + b * x * x * y + d * x * y * y + e * y * y * y
  }

  function Quartic(a: real, b: real, d: real, e: real, f: real, x: real, y: real): real
  {
    a * x * x * x * x + b * x * x * x * y + d * x * x * y * y + e * x * y * y * y + f * y * y * y * y
  }

  /** The polynomial with coefficients c at (x, y), grouped by total degree. */
  function Eval(c: Coeffs, x: real, y: real): real
  {
    c.c00 + Linear(c.c10, c.c01, x, y) + Quadratic(c.c20, c.c11, c.c02, x, y)
    + Cubic(c.c30, c.c21, c.c12, c.c03, x, y) + Quartic(c.c40, c.c31, c.c22, c.c13, c.c04, x, y)
  }

  /** The formal derivative in x: the monomial x^p y^q becomes p x^(p-1) y^q. */
  function DX(c: Coeffs): Coeffs
  {
    Coeffs(c.c10, 2.0 * c.c20, c.c11, 3.0 * c.c30, 2.0 * c.c21, c.c12, 4.0 * c.c40, 3.0 * c.c31, 2.0 * c.c22, c.c13,
           0.0, 0.0, 0.0, 0.0, 0.0)
  }

  /** The formal derivative in y: the monomial x^p y^q becomes q x^p y^(q-1). */
  function DY(c: Coeffs): Coeffs
  {
    Coeffs(c.c01, c.c11, 2.0 * c.c02, c.c21, 2.0 * c.c12, 3.0 * c.c03, c.c31, 2.0 * c.c22, 3.0 * c.c13, 4.0 * c.c04,
           0.0, 0.0, 0.0, 0.0, 0.0)
  }

  function CubicRX(a: real, b: real, x: real, y: real, t: real): real
  {
    a * (3.0 * x + t) + b * y
  }

  function QuarticRX(a: real, b: real, d: real, x: real, y: real, t: real): real
  {
    a * (6.0 * x * x + 4.0 * x * t + t * t) + b * (3.0 * x + t) * y + d * y * y
  }

  /** The second-order remainder of a step t along x. */
  function RX(c: Coeffs, x: real, y: real, t: real): real
  {
    c.c20 + CubicRX(c.c30, c.c21, x, y, t) + QuarticRX(c.c40, c.c31, c.c22, x, y, t)
  }

  function CubicRY(d: real, e: real, x: real, y: real, t: real): real
  {
    d * x + e * (3.0 * y + t)
  }

  function QuarticRY(d: real, e: real, f: real, x: real, y: real, t: real): real
  {
    d * x * x + e * x * (3.0 * y + t) + f * (6.0 * y * y + 4.0 * y * t + t * t)
  }

  /** The second-order remainder of a step t along y. */
  function RY(c: Coeffs, x: real, y: real, t: real): real
  {
    c.c02 + CubicRY(c.c12, c.c03, x, y, t) + QuarticRY(c.c22, c.c13, c.c04, x, y, t)
  }

  lemma LinearX(a: real, b: real, x: real, y: real, t: real)
    ensures Expanded(Linear(a, b, x + t, y), Linear(a, b, x, y), a, 0.0, t)
  {
  }

  lemma QuadraticX(a: real, b: real, d: real, x: real, y: real, t: real)
    ensures Expanded(Quadratic(a, b, d, x + t, y), Quadratic(a, b, d, x, y), Linear(2.0 * a, b, x, y), a, t)
  {
  }

  lemma CubicX(a: real, b: real, d: real, e: real, x: real, y: real, t: real)
    ensures Expanded(Cubic(a, b, d, e, x + t, y), Cubic(a, b, d, e, x, y),
                     Quadratic(3.0 * a, 2.0 * b, d, x, y), CubicRX(a, b, x, y, t), t)
  {
  }

  lemma QuarticX(a: real, b: real, d: real, e: real, f: real, x: real, y: real, t: real)
    ensures Expanded(Quartic(a, b, d, e, f, x + t, y), Quartic(a, b, d, e, f, x, y),
                     Cubic(4.0 * a, 3.0 * b, 2.0 * d, e, x, y), QuarticRX(a, b, d, x, y, t), t)
  {
  }

  lemma LinearY(a: real, b: real, x: real, y: real, t: real)
    ensures Expanded(Linear(a, b, x, y + t), Linear(a, b, x, y), b, 0.0, t)
  {
  }

  lemma QuadraticY(a: real, b: real, d: real, x: real, y: real, t: real)
    ensures Expanded(Quadratic(a, b, d, x, y + t), Quadratic(a, b, d, x, y), Linear(b, 2.0 * d, x, y), d, t)
  {
  }

  lemma CubicY(a: real, b: real, d: real, e: real, x: real, y: real, t: real)
    ensures Expanded(Cubic(a, b, d, e, x, y + t), Cubic(a, b, d, e, x, y),
                     Quadratic(b, 2.0 * d, 3.0 * e, x, y), CubicRY(d, e, x, y, t), t)
  {
  }

  lemma QuarticY(a: real, b: real, d: real, e: real, f: real, x: real, y: real, t: real)
    ensures Expanded(Quartic(a, b, d, e, f, x, y + t), Quartic(a, b, d, e, f, x, y),
                     Cubic(b, 2.0 * d, 3.0 * e, 4.0 * f, x, y), QuarticRY(d, e, f, x, y, t), t)
  {
  }

  /** A step t along x changes Eval(c) by t * Eval(DX(c)) plus t^2 times RX: DX is the x-derivative. */
  lemma ExpansionX(c: Coeffs, x: real, y: real, t: real)
    ensures Expanded(Eval(c, x + t, y), Eval(c, x, y), Eval(DX(c), x, y), RX(c, x, y, t), t)
  {
    LinearX(c.c10, c.c01, x, y, t);
    QuadraticX(c.c20, c.c11, c.c02, x, y, t);
    CubicX(c.c30, c.c21, c.c12, c.c03, x, y, t);
    QuarticX(c.c40, c.c31, c.c22, c.c13, c.c04, x, y, t);
    ExpandedSum(c.c00, c.c00, 0.0, 0.0, Linear(c.c10, c.c01, x + t, y), Linear(c.c10, c.c01, x, y), c.c10, 0.0, t);
    var L := c.c00 + Linear(c.c10, c.c01, x + t, y);
    var P := c.c00 + Linear(c.c10, c.c01, x, y);
    ExpandedSum(L, P, 0.0 + c.c10, 0.0 + 0.0,
                Quadratic(c.c20, c.c11, c.c02, x + t, y), Quadratic(c.c20, c.c11, c.c02, x, y), Linear(2.0 * c.c20, c.c11, x, y), c.c20, t);
    L, P := L + Quadratic(c.c20, c.c11, c.c02, x + t, y), P + Quadratic(c.c20, c.c11, c.c02, x, y);
    var D := 0.0 + c.c10 + Linear(2.0 * c.c20, c.c11, x, y);
    var R := 0.0 + 0.0 + c.c20;
    ExpandedSum(L, P, D, R, Cubic(c.c30, c.c21, c.c12, c.c03, x + t, y), Cubic(c.c30, c.c21, c.c12, c.c03, x, y),
                Quadratic(3.0 * c.c30, 2.0 * c.c21, c.c12, x, y), CubicRX(c.c30, c.c21, x, y, t), t);
    L, P := L + Cubic(c.c30, c.c21, c.c12, c.c03, x + t, y), P + Cubic(c.c30, c.c21, c.c12, c.c03, x, y);
    D, R := D + Quadratic(3.0 * c.c30, 2.0 * c.c21, c.c12, x, y), R + CubicRX(c.c30, c.c21, x, y, t);
    ExpandedSum(L, P, D, R, Quartic(c.c40, c.c31, c.c22, c.c13, c.c04, x + t, y), Quartic(c.c40, c.c31, c.c22, c.c13, c.c04, x, y),
                Cubic(4.0 * c.c40, 3.0 * c.c31, 2.0 * c.c22, c.c13, x, y), QuarticRX(c.c40, c.c31, c.c22, x, y, t), t);
    assert Quartic(0.0, 0.0, 0.0, 0.0, 0.0, x, y) == 0.0;
    ExpandedSubst(L + Quartic(c.c40, c.c31, c.c22, c.c13, c.c04, x + t, y), P + Quartic(c.c40, c.c31, c.c22, c.c13, c.c04, x, y),
                  D + Cubic(4.0 * c.c40, 3.0 * c.c31, 2.0 * c.c22, c.c13, x, y), R + QuarticRX(c.c40, c.c31, c.c22, x, y, t),
                  Eval(c, x + t, y), Eval(c, x, y), Eval(DX(c), x, y), RX(c, x, y, t), t);
  }

  /** A step t along y changes Eval(c) by t * Eval(DY(c)) plus t^2 times RY: DY is the y-derivative. */
  lemma ExpansionY(c: Coeffs, x: real, y: real, t: real)
    ensures Expanded(Eval(c, x, y + t), Eval(c, x, y), Eval(DY(c), x, y), RY(c, x, y, t), t)
  {
    LinearY(c.c10, c.c01, x, y, t);
    QuadraticY(c.c20, c.c11, c.c02, x, y, t);
    CubicY(c.c30, c.c21, c.c12, c.c03, x, y, t);
    QuarticY(c.c40, c.c31, c.c22, c.c13, c.c04, x, y, t);
    ExpandedSum(c.c00, c.c00, 0.0, 0.0, Linear(c.c10, c.c01, x, y + t), Linear(c.c10, c.c01, x, y), c.c01, 0.0, t);
    var L := c.c00 + Linear(c.c10, c.c01, x, y + t);
    var P := c.c00 + Linear(c.c10, c.c01, x, y);
    ExpandedSum(L, P, 0.0 + c.c01, 0.0 + 0.0,
                Quadratic(c.c20, c.c11, c.c02, x, y + t), Quadratic(c.c20, c.c11, c.c02, x, y), Linear(c.c11, 2.0 * c.c02, x, y), c.c02, t);
    L, P := L + Quadratic(c.c20, c.c11, c.c02, x, y + t), P + Quadratic(c.c20, c.c11, c.c02, x, y);
    var D := 0.0 + c.c01 + Linear(c.c11, 2.0 * c.c02, x, y);
    var R := 0.0 + 0.0 + c.c02;
    ExpandedSum(L, P, D, R, Cubic(c.c30, c.c21, c.c12, c.c03, x, y + t), Cubic(c.c30, c.c21, c.c12, c.c03, x, y),
                Quadratic(c.c21, 2.0 * c.c12, 3.0 * c.c03, x, y), CubicRY(c.c12, c.c03, x, y, t), t);
    L, P := L + Cubic(c.c30, c.c21, c.c12, c.c03, x, y + t), P + Cubic(c.c30, c.c21, c.c12, c.c03, x, y);
    D, R := D + Quadratic(c.c21, 2.0 * c.c12, 3.0 * c.c03, x, y), R + CubicRY(c.c12, c.c03, x, y, t);
    ExpandedSum(L, P, D, R, Quartic(c.c40, c.c31, c.c22, c.c13, c.c04, x, y + t), Quartic(c.c40, c.c31, c.c22, c.c13, c.c04, x, y),
                Cubic(c.c31, 2.0 * c.c22, 3.0 * c.c13, 4.0 * c.c04, x, y), QuarticRY(c.c22, c.c13, c.c04, x, y, t), t);
    assert Quartic(0.0, 0.0, 0.0, 0.0, 0.0, x, y) == 0.0;
    ExpandedSubst(L + Quartic(c.c40, c.c31, c.c22, c.c13, c.c04, x, y + t), P + Quartic(c.c40, c.c31, c.c22, c.c13, c.c04, x, y),
                  D + Cubic(c.c31, 2.0 * c.c22, 3.0 * c.c13, 4.0 * c.c04, x, y), R + QuarticRY(c.c22, c.c13, c.c04, x, y, t),
                  Eval(c, x, y + t), Eval(c, x, y), Eval(DY(c), x, y), RY(c, x, y, t), t);
  }
}
