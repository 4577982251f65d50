/**
 * The analytic level sets: scalar fields over the plane whose zero set is the
 * interface a cut mesh follows. Each field is an immutable value (its
 * parameters are fixed at construction) with a value and a gradient.
 *
 * Box-type fields (square, rotated square, M shape) return -in * d, where d is
 * the distance to the nearest of four axis-parallel lines and in is +1 where
 * the field's inside test holds and -1 elsewhere: so they are at most 0
 * inside and at least 0 outside. The polynomial fields (circle, ellipse,
 * Couette) and the line are smooth, and their gradients are checked against
 * the value by the expansion f(p + t v) = f(p) + t (grad f(p) . v) + t^2 R.
 */
module LevelSets {
  import opened Common
  import opened Power

  // ---------------------------------------------------------------------------
  // Shared pieces.

  /** The point p + t v. */
  function Along(p: Point, v: Point, t: real): Point
  {
    Point(p.x + t * v.x, p.y + t * v.y)
  }

  /** The derivative of a field with gradient g along v. */
  function Directional(g: Vec2, v: Point): real
  {
    g.x * v.x + g.y * v.y
  }

  /** The sign `in` of the box-type fields: 1 where the inside test holds, -1 elsewhere. */
  function In(inside: bool): real
  {
    if inside then 1.0 else -1.0
  }

  /** min(min(|x - x1|, |x - x2|), min(|y - y1|, |y - y2|)): the distance to the nearest of four lines. */
  function LinesDistance(p: Point, x1: real, x2: real, y1: real, y2: real): real
  {
    Min(Min(Abs(p.x - x1), Abs(p.x - x2)), Min(Abs(p.y - y1), Abs(p.y - y2)))
  }

  /** The box-type field -in * LinesDistance. */
  function BoxField(inside: bool, p: Point, x1: real, x2: real, y1: real, y2: real): real
  {
    -In(inside) * LinesDistance(p, x1, x2, y1, y2)
  }

  /**
   * A box-type field is at most 0 where its inside test holds and at least 0
   * elsewhere, and it is 0 exactly on the four lines.
   */
  lemma BoxFieldSign(inside: bool, p: Point, x1: real, x2: real, y1: real, y2: real)
    ensures inside ==> BoxField(inside, p, x1, x2, y1, y2) <= 0.0
    ensures !inside ==> BoxField(inside, p, x1, x2, y1, y2) >= 0.0
    ensures BoxField(inside, p, x1, x2, y1, y2) == 0.0 <==> p.x == x1 || p.x == x2 || p.y == y1 || p.y == y2
  {
    var d := LinesDistance(p, x1, x2, y1, y2);
    assert d >= 0.0;
    assert d == 0.0 <==> p.x == x1 || p.x == x2 || p.y == y1 || p.y == y2;
  }

  /**
   * The index of the first smallest entry of d: the edge a scan picks that
   * keeps the first entry and then takes an entry only when it is strictly
   * smaller than the best so far.
   */
  function Nearest(d: seq<real>): (i: nat)
    requires |d| > 0
    ensures i < |d|
  {
    if |d| == 1 then 0
    else
      var j := Nearest(d[..|d| - 1]);
      if d[|d| - 1] < d[j] then |d| - 1 else j
  }

  /** Nearest picks a smallest entry, and every earlier entry is strictly larger. */
  lemma {:induction false} NearestIsFirstMinimum(d: seq<real>)
    requires |d| > 0
    ensures forall j :: 0 <= j < |d| ==> d[Nearest(d)] <= d[j]
    ensures forall j :: 0 <= j < Nearest(d) ==> d[Nearest(d)] < d[j]
  {
    if |d| > 1 {
      var front := d[..|d| - 1];
      NearestIsFirstMinimum(front);
      assert forall j :: 0 <= j < |front| ==> front[j] == d[j];
    }
  }

  /** The first smallest entry is unique: any index with both properties is Nearest(d). */
  lemma FirstMinimumIsNearest(d: seq<real>, i: nat)
    requires i < |d|
    requires forall j :: 0 <= j < |d| ==> d[i] <= d[j]
    requires forall j :: 0 <= j < i ==> d[i] < d[j]
    ensures i == Nearest(d)
  {
    NearestIsFirstMinimum(d);
  }

  /** Nearest of four entries, as the scan computes it. */
  lemma NearestOfFour(d0: real, d1: real, d2: real, d3: real)
    ensures Nearest([d0, d1, d2, d3]) ==
      var i1 := if d1 < d0 then 1 else 0;
      var m1 := if d1 < d0 then d1 else d0;
      var i2 := if d2 < m1 then 2 else i1;
      var m2 := if d2 < m1 then d2 else m1;
      if d3 < m2 then 3 else i2
  {
    var d := [d0, d1, d2, d3];
    assert d[..3] == [d0, d1, d2];
    assert [d0, d1, d2][..2] == [d0, d1];
    assert [d0, d1][..1] == [d0];
    assert Nearest([d0]) == 0;
    assert Nearest([d0, d1]) == if d1 < d0 then 1 else 0;
  }

  // ---------------------------------------------------------------------------
  // `square_level_set`: the box [xLeft, xRight] x [yBot, yTop].

  datatype SquareLevelSet = SquareLevelSet(yTop: real, yBot: real, xLeft: real, xRight: real) {

    /** The inside test: strictly inside the box. */
    predicate Inside(p: Point)
    {
      p.x > xLeft && p.x < xRight && p.y > yBot && p.y < yTop
    }

    /** The field -in * (distance to the nearest of the four lines of the box): negative exactly inside. */
    function Value(p: Point): (v: real)
      ensures v < 0.0 <==> Inside(p)
    {
      BoxFieldSign(Inside(p), p, xLeft, xRight, yBot, yTop);
      BoxField(Inside(p), p, xLeft, xRight, yBot, yTop)
    }

    /** The distances to the left, right, bottom and top lines, in the order the gradient scans them. */
    function EdgeDistances(p: Point): (d: seq<real>)
      ensures |d| == 4
    {
      [Abs(p.x - xLeft), Abs(p.x - xRight), Abs(p.y - yBot), Abs(p.y - yTop)]
    }

    /**
     * The gradient: the outward normal of the nearest edge, scanning left,
     * right, bottom, top and moving on only to a strictly nearer edge.
     */
    method Gradient(p: Point) returns (ret: Vec2)
      ensures ret == EdgeNormal(Nearest(EdgeDistances(p)))
    {
      var x := p.x;
      var y := p.y;
      var dist := Abs(x - xLeft);
      ret := Vec2(-1.0, 0.0);
      if Abs(x - xRight) < dist {
        dist := Abs(x - xRight);
        ret := Vec2(1.0, 0.0);
      }
      if Abs(y - yBot) < dist {
        dist := Abs(y - yBot);
        ret := Vec2(0.0, -1.0);
      }
      if Abs(y - yTop) < dist {
        ret := Vec2(0.0, 1.0);
      }
      NearestOfFour(Abs(x - xLeft), Abs(x - xRight), Abs(y - yBot), Abs(y - yTop));
    }

    /** At most 0 inside the box, at least 0 outside, 0 exactly on the four lines. */
    lemma ValueSign(p: Point)
      ensures Inside(p) ==> Value(p) <= 0.0
      ensures !Inside(p) ==> Value(p) >= 0.0
      ensures Value(p) == 0.0 <==> p.x == xLeft || p.x == xRight || p.y == yBot || p.y == yTop
    {
      BoxFieldSign(Inside(p), p, xLeft, xRight, yBot, yTop);
    }

    /**
     * The edge the gradient picks is one the value's magnitude is measured
     * to: |Value(p)| is its distance, and no edge is nearer.
     */
    lemma GradientEdgeIsNearest(p: Point)
      ensures Abs(Value(p)) == EdgeDistances(p)[Nearest(EdgeDistances(p))]
      ensures forall j :: 0 <= j < 4 ==> EdgeDistances(p)[Nearest(EdgeDistances(p))] <= EdgeDistances(p)[j]
    {
      var d := EdgeDistances(p);
      NearestIsFirstMinimum(d);
      var m := LinesDistance(p, xLeft, xRight, yBot, yTop);
      assert m == d[0] || m == d[1] || m == d[2] || m == d[3];
      assert m <= d[0] && m <= d[1] && m <= d[2] && m <= d[3];
    }
  }

  /**
   * Two samples of the unit square: -0.5 at its centre, and +0.5 at (-1, 0.5),
   * where the nearest line is y = 0 (or y = 1) at distance 0.5, not x = 0.
   */
  lemma UnitSquareSamples()
    ensures SquareLevelSet(1.0, 0.0, 0.0, 1.0).Value(Point(0.5, 0.5)) == -0.5
    ensures SquareLevelSet(1.0, 0.0, 0.0, 1.0).Value(Point(-1.0, 0.5)) == 0.5
  {
  }

  /** The outward unit normals of the left, right, bottom and top edges. */
  function EdgeNormal(i: nat): (n: Vec2)
    ensures Abs(n.x) + Abs(n.y) == 1.0
  {
    if i == 0 then Vec2(-1.0, 0.0)
    else if i == 1 then Vec2(1.0, 0.0)
    else if i == 2 then Vec2(0.0, -1.0)
    else Vec2(0.0, 1.0)
  }

  // ---------------------------------------------------------------------------
  // `rotated_square`: the diamond with centre (xc, yc) and half-diagonal R.

  /**
   * The height at x of the line through (px, py) and (qx, qy), computed as
   * slope and intercept. When the two points coincide the slope is 0 / 0,
   * which is NaN in floating point: None here.
   */
  function LineY(px: real, py: real, qx: real, qy: real, x: real): Option<real>
  {
    if qx == px then None
    else
      var m := (qy - py) / (qx - px);
      var c := qy - m * qx;
      Some(m * x + c)
  }

  /** A line with a known slope m. */
  lemma LineThrough(px: real, py: real, qx: real, qy: real, x: real, m: real)
    requires qx != px && qy - py == m * (qx - px)
    ensures LineY(px, py, qx, qy, x).Some? && LineY(px, py, qx, qy, x).value == m * x + (qy - m * qx)
  {
    assert (qy - py) / (qx - px) == m;
  }

  /** y > l, false when l is NaN. */
  predicate Above(y: real, l: Option<real>)
  {
    l.Some? && y > l.value
  }

  /** y < l, false when l is NaN. */
  predicate Below(y: real, l: Option<real>)
  {
    l.Some? && y < l.value
  }

  /** |y - l|, NaN when l is NaN. */
  function Distance(y: real, l: Option<real>): Option<real>
  {
    if l.Some? then Some(Abs(y - l.value)) else None
  }

  /** a < b, false when either is NaN. */
  predicate Less(a: Option<real>, b: Option<real>)
  {
    a.Some? && b.Some? && a.value < b.value
  }

  datatype RotatedSquare = RotatedSquare(xc: real, yc: real, R: real) {

    /** The bottom, right, top and left vertices. */
    function A(): Point { Point(xc, yc - R) }
    function B(): Point { Point(xc + R, yc) }
    function C(): Point { Point(xc, yc + R) }
    function D(): Point { Point(xc - R, yc) }

    /** The heights at x of the four edge lines: bottom-right, right-top, top-left, left-bottom. */
    function Line1(x: real): Option<real> { LineY(A().x, A().y, B().x, B().y, x) }
    function Line2(x: real): Option<real> { LineY(B().x, B().y, C().x, C().y, x) }
    function Line3(x: real): Option<real> { LineY(C().x, C().y, D().x, D().y, x) }
    function Line4(x: real): Option<real> { LineY(D().x, D().y, A().x, A().y, x) }

    /** The inside test: one of the four quadrant tests against its edge line. */
    predicate Inside(p: Point)
    {
      (p.x >= xc && p.y <= yc && Above(p.y, Line1(p.x))) ||
      (p.x >= xc && p.y >= yc && Below(p.y, Line2(p.x))) ||
      (p.x <= xc && p.y >= yc && Below(p.y, Line3(p.x))) ||
      (p.x <= xc && p.y <= yc && Above(p.y, Line4(p.x)))
    }

    /** The field -in * (distance to the nearest of the lines x = xc +- R, y = yc +- R): negative exactly inside. */
    function Value(p: Point): (v: real)
      ensures v < 0.0 <==> Inside(p)
    {
      InsideIsDiamond(p);
      BoxFieldSign(Inside(p), p, B().x, D().x, A().y, C().y);
      BoxField(Inside(p), p, B().x, D().x, A().y, C().y)
    }

    /**
     * The side the gradient picks: the first nearest edge line; side 1 when
     * R is 0, since then every distance is NaN and no comparison holds.
     */
    function NearestSide(p: Point): (s: nat)
      ensures 1 <= s <= 4
    {
      if R == 0.0 then 1
      else Nearest([Abs(p.y - Line1(p.x).value), Abs(p.y - Line2(p.x).value),
                    Abs(p.y - Line3(p.x).value), Abs(p.y - Line4(p.x).value)]) + 1
    }

    /** The edge lines for R != 0: slopes 1, -1, 1, -1. */
    lemma Lines(x: real)
      requires R != 0.0
      ensures Line1(x).Some? && Line1(x).value == x - xc + yc - R
      ensures Line2(x).Some? && Line2(x).value == -x + xc + yc + R
      ensures Line3(x).Some? && Line3(x).value == x - xc + yc + R
      ensures Line4(x).Some? && Line4(x).value == -x + xc + yc - R
    {
      LineThrough(A().x, A().y, B().x, B().y, x, 1.0);
      LineThrough(B().x, B().y, C().x, C().y, x, -1.0);
      LineThrough(C().x, C().y, D().x, D().y, x, 1.0);
      LineThrough(D().x, D().y, A().x, A().y, x, -1.0);
    }

    /** The edge lines are NaN when R is 0. */
    lemma LinesDegenerate(x: real)
      requires R == 0.0
      ensures Line1(x) == None && Line2(x) == None && Line3(x) == None && Line4(x) == None
    {
    }

    /** The inside test holds exactly in the open diamond |x - xc| + |y - yc| < R. */
    lemma InsideIsDiamond(p: Point)
      ensures Inside(p) <==> Abs(p.x - xc) + Abs(p.y - yc) < R
    {
      if R == 0.0 {
        LinesDegenerate(p.x);
      } else {
        Lines(p.x);
      }
    }

    /** At most 0 where the inside test holds, at least 0 elsewhere, 0 exactly on the four lines. */
    lemma ValueSign(p: Point)
      ensures Inside(p) ==> Value(p) <= 0.0
      ensures !Inside(p) ==> Value(p) >= 0.0
      ensures Value(p) == 0.0 <==> p.x == xc + R || p.x == xc - R || p.y == yc - R || p.y == yc + R
    {
      BoxFieldSign(Inside(p), p, B().x, D().x, A().y, C().y);
    }

    /** For R > 0 the value at the centre is -R. */
    lemma ValueAtCentre()
      requires R > 0.0
      ensures Value(Point(xc, yc)) == -R
    {
      InsideIsDiamond(Point(xc, yc));
    }

    /**
     * The gradient before normalisation: the direction of the side picked
     * by scanning the four edge lines and moving on only to a strictly
     * nearer one.
     */
    method Gradient(p: Point) returns (ret: Vec2)
      ensures ret == Direction(NearestSide(p))
    {
      var x := p.x;
      var y := p.y;
      var dist1 := Distance(y, Line1(x));
      var dist := dist1;
      var side := 1;
      var dist2 := Distance(y, Line2(x));
      if Less(dist2, dist) {
        dist := dist2;
        side := 2;
      }
      var dist3 := Distance(y, Line3(x));
      if Less(dist3, dist) {
        dist := dist3;
        side := 3;
      }
      var dist4 := Distance(y, Line4(x));
      if Less(dist4, dist) {
        dist := dist4;
        side := 4;
      }
      if side == 1 {
        ret := Vec2(0.5, -0.5);
      } else if side == 2 {
        ret := Vec2(0.5, 0.5);
      } else if side == 3 {
        ret := Vec2(-0.5, 0.5);
      } else {
        ret := Vec2(-0.5, -0.5);
      }
      if R == 0.0 {
        LinesDegenerate(x);
      } else {
        Lines(x);
        NearestOfFour(dist1.value, dist2.value, dist3.value, dist4.value);
      }
    }

    /**
     * The direction of side s is normal to that edge and points away from
     * the centre: its product with the edge's first vertex, taken from the
     * centre, is R / 2.
     */
    lemma DirectionIsOutwardNormal(s: nat)
      requires 1 <= s <= 4
      ensures var (from, to) := Edge(s);
        Directional(Direction(s), Minus(to, from)) == 0.0 &&
        Directional(Direction(s), Minus(from, Point(xc, yc))) == R / 2.0
    {
    }

    /** Edge s as its two vertices: bottom-right, right-top, top-left, left-bottom. */
    function Edge(s: nat): (Point, Point)
    {
      if s == 1 then (A(), B())
      else if s == 2 then (B(), C())
      else if s == 3 then (C(), D())
      else (D(), A())
    }
  }

  /** The directions of sides 1 to 4, before normalisation. */
  function Direction(s: nat): (d: Vec2)
    ensures Abs(d.x) == 0.5 && Abs(d.y) == 0.5
  {
    if s == 1 then Vec2(0.5, -0.5)
    else if s == 2 then Vec2(0.5, 0.5)
    else if s == 3 then Vec2(-0.5, 0.5)
    else Vec2(-0.5, -0.5)
  }

  // ---------------------------------------------------------------------------
  // `m_shaped_level_set`: a box with an M-shaped roof.

  datatype MShaped = MShaped(eps: real, epsBndry: real, posSides: real) {

    /** The lines of the box: x and y = a from below, x = b, y = d from above; c is the height of the roof's dip. */
    function LowA(): real { posSides + epsBndry }
    function HighB(): real { (1.0 - posSides) - epsBndry }
    function DipC(): real { 0.75 + eps }
    function TopD(): real { 1.0 - epsBndry }

    /** The height at x of the left roof edge, from (a, d) down to (0.5, c). */
    function LeftRoof(x: real): real
      requires LowA() != 0.5
    {
      var m1 := (DipC() - TopD()) / (0.5 - LowA());
      var c1 := DipC() - m1 * 0.5;
      m1 * x + c1
    }

    /** The height at x of the right roof edge, from (0.5, c) up to (b, d). */
    function RightRoof(x: real): real
      requires HighB() != 0.5
    {
      var m2 := (DipC() - TopD()) / (0.5 - HighB());
      var c2 := DipC() - m2 * 0.5;
      m2 * x + c2
    }

    /**
     * The inside test: right of x = a, left of x = b, above y = a, and below
     * the dip or under the roof. The box conjuncts come first: when a = 0.5
     * (so b = 0.5 too) no x lies strictly between a and b, and the roof
     * lines, whose slopes would divide by zero, are never consulted.
     */
    predicate Inside(p: Point): (b: bool)
      ensures b ==> LowA() < p.x < HighB() && LowA() < p.y && p.y != DipC()
    {
      p.y > LowA() && p.x > LowA() && p.x < HighB() &&
      (p.y < DipC() ||
       (p.y > DipC() && p.x <= 0.5 && p.y < LeftRoof(p.x)) ||
       (p.y > DipC() && p.x >= 0.5 && p.y < RightRoof(p.x)))
    }

    /**
     * The field -in * (distance to the nearest of x = a, x = b, y = a, y = d):
     * negative exactly at the inside points off the top line y = d.
     */
    function Value(p: Point): (v: real)
      ensures v < 0.0 <==> Inside(p) && p.y != TopD()
    {
      BoxFieldSign(Inside(p), p, LowA(), HighB(), LowA(), TopD());
      BoxField(Inside(p), p, LowA(), HighB(), LowA(), TopD())
    }

    /**
     * With a = 0.5 the box is empty: no point is inside, and the field is the
     * plain distance to the nearest of the four lines, never negative.
     */
    lemma DegenerateBox(p: Point)
      requires LowA() == 0.5
      ensures !Inside(p)
      ensures Value(p) == LinesDistance(p, LowA(), HighB(), LowA(), TopD())
      ensures Value(p) >= 0.0
    {
    }

    /** At most 0 where the inside test holds, at least 0 elsewhere, 0 exactly on the four lines. */
    lemma ValueSign(p: Point)
      ensures Inside(p) ==> Value(p) <= 0.0
      ensures !Inside(p) ==> Value(p) >= 0.0
      ensures Value(p) == 0.0 <==> p.x == LowA() || p.x == HighB() || p.y == LowA() || p.y == TopD()
    {
      BoxFieldSign(Inside(p), p, LowA(), HighB(), LowA(), TopD());
    }

    /** The roof edges meet at (0.5, c) and reach height d at x = a and x = b. */
    lemma RoofEnds()
      requires LowA() != 0.5
      ensures LeftRoof(0.5) == DipC() && RightRoof(0.5) == DipC()
      ensures LeftRoof(LowA()) == TopD() && RightRoof(HighB()) == TopD()
    {
      var m1 := (DipC() - TopD()) / (0.5 - LowA());
      assert m1 * (0.5 - LowA()) == DipC() - TopD();
      var m2 := (DipC() - TopD()) / (0.5 - HighB());
      assert m2 * (0.5 - HighB()) == DipC() - TopD();
    }
  }

  // ---------------------------------------------------------------------------
  // The polynomial fields.

  /**
   * wx (x - cx)(x - cx) + wy (y - cy)(y - cy) - k, with the products
   * grouped as in the source: the shape of the circle, ellipse and Couette
   * fields.
   */
  function Quadric(wx: real, wy: real, k: real, c: Point, p: Point): real
  {
    wx * (p.x - c.x) * (p.x - c.x) + wy * (p.y - c.y) * (p.y - c.y) - k
  }

  /** The gradient (2 wx (x - cx), 2 wy (y - cy)) of Quadric. */
  function QuadricGradient(wx: real, wy: real, c: Point, p: Point): Vec2
  {
    Vec2(2.0 * wx * (p.x - c.x), 2.0 * wy * (p.y - c.y))
  }

  /** QuadricGradient is the derivative of Quadric: the expansion along v leaves t^2 (wx vx^2 + wy vy^2). */
  lemma QuadricExpansion(wx: real, wy: real, k: real, c: Point, p: Point, v: Point, t: real)
    ensures Expanded(Quadric(wx, wy, k, c, Along(p, v, t)), Quadric(wx, wy, k, c, p),
                     Directional(QuadricGradient(wx, wy, c, p), v), wx * v.x * v.x + wy * v.y * v.y, t)
  {
  }

  /** The square of a non-zero number is positive. */
  lemma SquarePositive(r: real)
    requires r != 0.0
    ensures Square(r) > 0.0
  {
    if r < 0.0 {
      assert Square(r) == Product(-r, -r);
    }
  }

  /**
   * A weighted sum of two squares with non-negative weights is never
   * negative; with positive weights it is 0 only when both terms are.
   */
  lemma WeightedSquares(w1: real, a: real, w2: real, b: real)
    requires w1 >= 0.0 && w2 >= 0.0
    ensures w1 * a * a + w2 * b * b >= 0.0
    ensures w1 > 0.0 && w2 > 0.0 ==> (w1 * a * a + w2 * b * b == 0.0 <==> a == 0.0 && b == 0.0)
  {
    if a != 0.0 {
      SquarePositive(a);
    }
    if b != 0.0 {
      SquarePositive(b);
    }
    assert w1 * a * a == w1 * Square(a) && w2 * b * b == w2 * Square(b);
  }

  /** A nonzero radius has a positive square. */
  lemma SquareNonNegative(r: real)
    ensures r * r >= 0.0
    ensures r != 0.0 ==> r * r > 0.0
  {
    if r != 0.0 {
      SquarePositive(r);
    }
  }

  /** Expansions change sign together. */
  lemma ExpandedNegated(L: real, P: real, D: real, R: real, t: real)
    requires Expanded(L, P, D, R, t)
    ensures Expanded(-L, -P, -D, -R, t)
  {
  }

  /** `circle_level_set`: (x - alpha)^2 + (y - beta)^2 - radius^2. */
  datatype CircleLevelSet = CircleLevelSet(radius: real, alpha: real, beta: real) {

    function Centre(): Point { Point(alpha, beta) }

    /** The value: smallest, -radius^2, at the centre and nowhere else. */
    function Value(p: Point): (v: real)
      ensures v >= -(radius * radius)
      ensures v == -(radius * radius) <==> p == Centre()
    {
      WeightedSquares(1.0, p.x - alpha, 1.0, p.y - beta);
      (p.x - alpha) * (p.x - alpha) + (p.y - beta) * (p.y - beta) - radius * radius
    }

    /** The gradient: zero at the centre and nowhere else. */
    function Gradient(p: Point): (g: Vec2)
      ensures g == Vec2(0.0, 0.0) <==> p == Centre()
    {
      Vec2(2.0 * p.x - 2.0 * alpha, 2.0 * p.y - 2.0 * beta)
    }

    /** The value is the quadric with unit weights. */
    lemma ValueIsQuadric(p: Point)
      ensures Value(p) == Quadric(1.0, 1.0, radius * radius, Centre(), p)
    {
    }

    /** The gradient is that of the quadric with unit weights. */
    lemma GradientIsQuadric(p: Point)
      ensures Gradient(p) == QuadricGradient(1.0, 1.0, Centre(), p)
    {
    }

    /** The gradient is the derivative of the value; the remainder is t^2 |v|^2. */
    lemma GradientIsDerivative(p: Point, v: Point, t: real)
      ensures Expanded(Value(Along(p, v, t)), Value(p), Directional(Gradient(p), v), v.x * v.x + v.y * v.y, t)
    {
      ValueIsQuadric(p);
      ValueIsQuadric(Along(p, v, t));
      GradientIsQuadric(p);
      QuadricExpansion(1.0, 1.0, radius * radius, Centre(), p, v, t);
    }

    /**
     * The value is negative at the centre when radius != 0, and 0 on the
     * circle: at the four points at distance radius along the axes.
     */
    lemma ValueAtCentreAndAxes()
      ensures radius != 0.0 ==> Value(Centre()) < 0.0
      ensures Value(Point(alpha + radius, beta)) == 0.0 && Value(Point(alpha - radius, beta)) == 0.0
      ensures Value(Point(alpha, beta + radius)) == 0.0 && Value(Point(alpha, beta - radius)) == 0.0
    {
      CentreValue();
      if radius != 0.0 {
        SquarePositive(radius);
      }
    }

    lemma CentreValue()
      ensures Value(Centre()) == -Square(radius)
    {
    }
  }

  /**
   * `elliptic_level_set`: rb^2 (x - alpha)^2 + ra^2 (y - beta)^2 - ra^2 rb^2,
   * the quadric with weights rb^2 and ra^2.
   */
  datatype EllipticLevelSet = EllipticLevelSet(radiusA: real, radiusB: real, alpha: real, beta: real) {

    function Centre(): Point { Point(alpha, beta) }

    /** The value: smallest, -ra^2 rb^2, at the centre. */
    function Value(p: Point): (v: real)
      ensures v >= -(radiusA * radiusA * radiusB * radiusB)
      ensures p == Centre() ==> v == -(radiusA * radiusA * radiusB * radiusB)
    {
      SquareNonNegative(radiusA);
      SquareNonNegative(radiusB);
      WeightedSquares(radiusB * radiusB, p.x - alpha, radiusA * radiusA, p.y - beta);
      Quadric(radiusB * radiusB, radiusA * radiusA, radiusA * radiusA * radiusB * radiusB, Centre(), p)
    }

    /** The gradient: zero at the centre. */
    function Gradient(p: Point): (g: Vec2)
      ensures p == Centre() ==> g == Vec2(0.0, 0.0)
    {
      Vec2(2.0 * radiusB * radiusB * (p.x - alpha), 2.0 * radiusA * radiusA * (p.y - beta))
    }

    /** The value is the quadric with weights rb^2 and ra^2. */
    lemma ValueIsQuadric(p: Point)
      ensures Value(p) == Quadric(radiusB * radiusB, radiusA * radiusA, radiusA * radiusA * radiusB * radiusB, Centre(), p)
    {
    }

    /** The gradient is that of the quadric. */
    lemma GradientIsQuadric(p: Point)
      ensures Gradient(p) == QuadricGradient(radiusB * radiusB, radiusA * radiusA, Centre(), p)
    {
    }

    /** The gradient is the derivative of the value; the remainder is t^2 (rb^2 vx^2 + ra^2 vy^2). */
    lemma GradientIsDerivative(p: Point, v: Point, t: real)
      ensures Expanded(Value(Along(p, v, t)), Value(p), Directional(Gradient(p), v),
                       radiusB * radiusB * v.x * v.x + radiusA * radiusA * v.y * v.y, t)
    {
      ValueIsQuadric(p);
      ValueIsQuadric(Along(p, v, t));
      GradientIsQuadric(p);
      QuadricExpansion(radiusB * radiusB, radiusA * radiusA, radiusA * radiusA * radiusB * radiusB, Centre(), p, v, t);
    }

    /** The value is 0 at the ends of both semi-axes. */
    lemma ZeroAtAxisEnds()
      ensures Value(Point(alpha + radiusA, beta)) == 0.0 && Value(Point(alpha - radiusA, beta)) == 0.0
      ensures Value(Point(alpha, beta + radiusB)) == 0.0 && Value(Point(alpha, beta - radiusB)) == 0.0
    {
    }
  }

  /**
   * `couette_level_set`: inside the disc x^2 + y^2 < 1/4 (centred at the
   * origin whatever alpha and beta are) the negated circle field scaled by
   * ra^2, elsewhere the circle field scaled by rb^2.
   */
  datatype CouetteLevelSet = CouetteLevelSet(radiusA: real, radiusB: real, alpha: real, beta: real) {

    function Centre(): Point { Point(alpha, beta) }

    /** The branch test on x^2 + y^2. */
    predicate InnerBranch(p: Point)
    {
      p.x * p.x + p.y * p.y < 1.0 / 4.0
    }

    /** The polynomial of the inner branch. */
    function InnerValue(p: Point): real
    {
      -Quadric(radiusA * radiusA, radiusA * radiusA, radiusA * radiusA * radiusA * radiusA, Centre(), p)
    }

    /** The polynomial of the outer branch. */
    function OuterValue(p: Point): real
    {
      Quadric(radiusB * radiusB, radiusB * radiusB, radiusB * radiusB * radiusB * radiusB, Centre(), p)
    }

    /**
     * The value: the inner polynomial vanishes on the circle of radius ra
     * about the centre, the outer one on the circle of radius rb.
     */
    function Value(p: Point): (v: real)
      ensures InnerBranch(p) && (p.x - alpha) * (p.x - alpha) + (p.y - beta) * (p.y - beta) == radiusA * radiusA ==> v == 0.0
      ensures !InnerBranch(p) && (p.x - alpha) * (p.x - alpha) + (p.y - beta) * (p.y - beta) == radiusB * radiusB ==> v == 0.0
    {
      if InnerBranch(p) then InnerValue(p) else OuterValue(p)
    }

    /** The gradient of the inner branch: that of the quadric, not of its negation. */
    function InnerGradient(p: Point): Vec2
    {
      Vec2(2.0 * radiusA * radiusA * (p.x - alpha), 2.0 * radiusA * radiusA * (p.y - beta))
    }

    function OuterGradient(p: Point): Vec2
    {
      Vec2(2.0 * radiusB * radiusB * (p.x - alpha), 2.0 * radiusB * radiusB * (p.y - beta))
    }

    /** The gradient: zero at the centre, in either branch. */
    function Gradient(p: Point): (g: Vec2)
      ensures p == Centre() ==> g == Vec2(0.0, 0.0)
    {
      if InnerBranch(p) then InnerGradient(p) else OuterGradient(p)
    }

    /** The inner polynomial is the negated quadric with weight ra^2. */
    lemma InnerValueIsQuadric(p: Point)
      ensures InnerValue(p) == -Quadric(radiusA * radiusA, radiusA * radiusA, radiusA * radiusA * radiusA * radiusA, Centre(), p)
    {
    }

    /** The outer polynomial is the quadric with weight rb^2. */
    lemma OuterValueIsQuadric(p: Point)
      ensures OuterValue(p) == Quadric(radiusB * radiusB, radiusB * radiusB, radiusB * radiusB * radiusB * radiusB, Centre(), p)
    {
    }

    lemma InnerGradientIsQuadric(p: Point)
      ensures InnerGradient(p) == QuadricGradient(radiusA * radiusA, radiusA * radiusA, Centre(), p)
    {
    }

    lemma OuterGradientIsQuadric(p: Point)
      ensures OuterGradient(p) == QuadricGradient(radiusB * radiusB, radiusB * radiusB, Centre(), p)
    {
    }

    /** The outer gradient is the derivative of the outer polynomial. */
    lemma OuterExpansion(p: Point, v: Point, t: real)
      ensures Expanded(OuterValue(Along(p, v, t)), OuterValue(p), Directional(OuterGradient(p), v),
                       radiusB * radiusB * v.x * v.x + radiusB * radiusB * v.y * v.y, t)
    {
      OuterValueIsQuadric(p);
      OuterValueIsQuadric(Along(p, v, t));
      OuterGradientIsQuadric(p);
      QuadricExpansion(radiusB * radiusB, radiusB * radiusB, radiusB * radiusB * radiusB * radiusB, Centre(), p, v, t);
    }

    /** The inner gradient is the derivative of the inner polynomial with the sign reversed. */
    lemma InnerExpansion(p: Point, v: Point, t: real)
      ensures Expanded(InnerValue(Along(p, v, t)), InnerValue(p), -Directional(InnerGradient(p), v),
                       -(radiusA * radiusA * v.x * v.x + radiusA * radiusA * v.y * v.y), t)
    {
      InnerValueIsQuadric(p);
      InnerValueIsQuadric(Along(p, v, t));
      InnerGradientIsQuadric(p);
      QuadricExpansion(radiusA * radiusA, radiusA * radiusA, radiusA * radiusA * radiusA * radiusA, Centre(), p, v, t);
      ExpandedNegated(Quadric(radiusA * radiusA, radiusA * radiusA, radiusA * radiusA * radiusA * radiusA, Centre(), Along(p, v, t)),
                      Quadric(radiusA * radiusA, radiusA * radiusA, radiusA * radiusA * radiusA * radiusA, Centre(), p),
                      Directional(QuadricGradient(radiusA * radiusA, radiusA * radiusA, Centre(), p), v),
                      radiusA * radiusA * v.x * v.x + radiusA * radiusA * v.y * v.y, t);
    }

    /**
     * At a point of the outer branch the gradient is the derivative of the
     * polynomial of that branch; at a point of the inner branch it is the
     * derivative with the sign reversed.
     */
    lemma GradientIsDerivative(p: Point, v: Point, t: real)
      ensures !InnerBranch(p) ==> Expanded(OuterValue(Along(p, v, t)), Value(p), Directional(Gradient(p), v),
                                           radiusB * radiusB * v.x * v.x + radiusB * radiusB * v.y * v.y, t)
      ensures InnerBranch(p) ==> Expanded(InnerValue(Along(p, v, t)), Value(p), -Directional(Gradient(p), v),
                                          -(radiusA * radiusA * v.x * v.x + radiusA * radiusA * v.y * v.y), t)
    {
      OuterExpansion(p, v, t);
      InnerExpansion(p, v, t);
    }
  }

  // ---------------------------------------------------------------------------
  // `line_level_set`: the horizontal line y = cutY. It is declared a
  // `class` with no access specifier, so every member is private there and
  // nothing outside it can construct or call it; the formulas are modelled
  // as written.

  datatype LineLevelSet = LineLevelSet(cutY: real) {

    /** The value: negative below the line, 0 on it, positive above it. */
    function Value(p: Point): (v: real)
      ensures v < 0.0 <==> p.y < cutY
      ensures v > 0.0 <==> p.y > cutY
    {
      p.y - cutY
    }

    /** The gradient: the unit normal of the line, pointing to increasing y. */
    function Gradient(p: Point): (g: Vec2)
      ensures g.x == 0.0 && g.y > 0.0 && g.x * g.x + g.y * g.y == 1.0
    {
      Vec2(0.0, 1.0)
    }

    /** The field is linear: its expansion along v has no remainder, and it ignores x. */
    lemma GradientIsDerivative(p: Point, v: Point, t: real)
      ensures Value(Along(p, v, t)) == Value(p) + t * Directional(Gradient(p), v)
      ensures Value(p) == Value(Point(0.0, p.y))
      ensures Value(p) == 0.0 <==> p.y == cutY
    {
    }
  }
}
