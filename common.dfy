/**
 * Values shared by the basis engine and the level-set library: points and
 * small fixed-size vectors and matrices (the Eigen containers of the source
 * become plain datatypes), and the error results that replace `exit(9)` and
 * `throw`.
 */
module Common {

  /** A strictly positive real: cell diameters and similar scales. */
  type Positive = r: real | r > 0.0 witness 1.0

  /** A point of the plane, also used as a free 2-vector. */
  datatype Point = Point(x: real, y: real)

  /** The vector from q to p. */
  function Minus(p: Point, q: Point): (r: Point)
    ensures r.x + q.x == p.x && r.y + q.y == p.y
  {
    Point(p.x - q.x, p.y - q.y)
  }

  /** The dot product of two points taken as vectors. */
  function Dot(a: Point, b: Point): real
  {
    a.x * b.x + a.y * b.y
  }

  /** The product a * b, whose sign follows from the signs of a and b. */
  function Product(a: real, b: real): (p: real)
    ensures a > 0.0 && b > 0.0 ==> p > 0.0
  {
    a * b
  }

  /** The square r * r. */
  function Square(r: real): (s: real)
    ensures r > 0.0 ==> s > 0.0
  {
    Product(r, r)
  }

  /** One row of a gradient matrix, or a 2-component vector value. */
  datatype Vec2 = Vec2(x: real, y: real)

  /** A 2x2 matrix, stored by entry: m01 is row 0, column 1. */
  datatype Mat2 = Mat2(m00: real, m01: real, m10: real, m11: real) {
    /** The entry at row i, column j. */
    function At(i: nat, j: nat): real
      requires i < 2 && j < 2
    {
      if i == 0 then (if j == 0 then m00 else m01)
      else (if j == 0 then m10 else m11)
    }

    predicate Symmetric() { m01 == m10 }
  }

  /** The matrix whose only nonzero entry is v, at row i, column j. */
  function Single(i: nat, j: nat, v: real): (m: Mat2)
    requires i < 2 && j < 2
    ensures m.At(i, j) == v
    ensures forall r, c :: 0 <= r < 2 && 0 <= c < 2 && (r, c) != (i, j) ==> m.At(r, c) == 0.0
  {
    if i == 0 then (if j == 0 then Mat2(v, 0.0, 0.0, 0.0) else Mat2(0.0, v, 0.0, 0.0))
    else (if j == 0 then Mat2(0.0, 0.0, v, 0.0) else Mat2(0.0, 0.0, 0.0, v))
  }

  /** Conditions under which the source stops instead of returning a value. */
  datatype Error = UnsupportedDegree(degree: nat)

  datatype Result<T> = Ok(value: T) | Err(error: Error)

  datatype Option<T> = None | Some(value: T)

  function Abs(a: real): (r: real)
    ensures r >= 0.0 && (r == a || r == -a)
  {
    if a < 0.0 then -a else a
  }

  function Min(a: real, b: real): (r: real)
    ensures r <= a && r <= b && (r == a || r == b)
  {
    if a < b then a else b
  }
}
