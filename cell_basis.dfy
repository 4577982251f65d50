/**
 * The scaled monomial basis of a cell (`cell_basis`): for a cell with
 * barycentre c and diameter h, the basis functions of degree at most d are
 * sx^(k-i) * sy^i with sx = (x - c.x) / (h/2) and sy = (y - c.y) / (h/2),
 * listed in the order of the Layout module. The gradients use the same
 * order and apply the chain rule with the factor 2/h.
 */
module CellBases {
  import opened Common
  import opened Power
  import opened Layout
  import opened Combinatorics

  /** The static `size(degree)`: (degree + 2)(degree + 1) / 2. */
  function CellSize(degree: nat): nat
  {
    (degree + 2) * (degree + 1) / 2
  }

  /** The cell size is the binomial C(degree + 2, 2) and lists Tri(degree + 1) monomials. */
  lemma CellSizeIsBinomial(degree: nat)
    ensures CellSize(degree) == Choose(degree + 2, 2)
    ensures CellSize(degree) == Tri(degree + 1)
  {
    ChooseTwo(degree);
    TriChoose(degree + 1);
  }

  /** The local coordinates (sx, sy) of pt in a cell of barycentre bar and diameter h. */
  function Scale(bar: Point, h: Positive, pt: Point): Point
  {
    Point((pt.x - bar.x) / (0.5 * h), (pt.y - bar.y) / (0.5 * h))
  }

  /** The monomial with exponents (p, q) at local coordinates b. */
  function MonomialEntry(b: Point, p: nat, q: nat): real
  {
    Pow(b.x, p) * Pow(b.y, q)
  }

  function Monomial(b: Point): (nat, nat) -> real
  {
    (p: nat, q: nat) => MonomialEntry(b, p, q)
  }

  /** The source's derivative factor: 0 for exponent 0, else p * ih * b^(p-1). */
  function DFactor(p: nat, b: real, ih: real): real
  {
    if p == 0 then 0.0 else (p as real) * ih * Pow(b, p - 1)
  }

  /** The gradient row of the monomial (p, q), with ih = 2/h the chain-rule factor. */
  function GradientEntry(b: Point, ih: real, p: nat, q: nat): Vec2
  {
    Vec2(DFactor(p, b.x, ih) * Pow(b.y, q), Pow(b.x, p) * DFactor(q, b.y, ih))
  }

  function MonomialGradient(b: Point, ih: real): (nat, nat) -> Vec2
  {
    (p: nat, q: nat) => GradientEntry(b, ih, p, q)
  }

  /** Every basis value at local coordinates b, for a basis of the given degree. */
  function MonomialValues(b: Point, degree: nat): seq<real>
  {
    Enumerate(Monomial(b), degree + 1)
  }

  function MonomialGradients(b: Point, ih: real, degree: nat): seq<Vec2>
  {
    Enumerate(MonomialGradient(b, ih), degree + 1)
  }

  /** One basis value: `iexp_pow(bx, p) * iexp_pow(by, q)`. */
  method MonomialAt(b: Point, p: nat, q: nat) returns (v: real)
    ensures v == MonomialEntry(b, p, q)
  {
    var px := IExpPow(b.x, p);
    var py := IExpPow(b.y, q);
    v := px * py;
  }

  /** One gradient row, with a zero component wherever the exponent is zero. */
  method GradientAt(b: Point, ih: real, p: nat, q: nat) returns (g: Vec2)
    ensures g == GradientEntry(b, ih, p, q)
  {
    var px := IExpPow(b.x, p);
    var py := IExpPow(b.y, q);
    var dx := 0.0;
    if p != 0 {
      var t := IExpPow(b.x, p - 1);
      dx := (p as real) * ih * t;
    }
    var dy := 0.0;
    if q != 0 {
      var t := IExpPow(b.y, q - 1);
      dy := (q as real) * ih * t;
    }
    g := Vec2(dx * py, px * dy);
  }

  /**
   * The loops of `eval_basis`: a vector of Tri(degree + 1) entries filled
   * through a running position, degree by degree and, within a degree, by
   * increasing power of y. Entry Idx(k, i) is the monomial (k - i, i).
   */
  method FillValues(b: Point, degree: nat) returns (ret: seq<real>)
    ensures Lists(ret, Monomial(b), degree + 1)
  {
    var a := new real[Tri(degree + 1)];
    ghost var spec := ListsWitness(Monomial(b), degree + 1);
    var pos := 0;
    var k := 0;
    while k <= degree
      invariant k <= degree + 1
      invariant pos == Tri(k) <= a.Length
      invariant forall j :: 0 <= j < pos ==> a[j] == spec[j]
    {
      TriMonotone(k + 1, degree + 1);
      var i := 0;
      while i <= k
        invariant i <= k + 1
        invariant pos == Tri(k) + i <= Tri(k + 1) <= a.Length
        invariant forall j :: 0 <= j < pos ==> a[j] == spec[j]
      {
        var v := MonomialAt(b, k - i, i);
        a[pos] := v;
        assert spec[Idx(k, i)] == Monomial(b)(k - i, i);
        pos := pos + 1;
        i := i + 1;
      }
      k := k + 1;
    }
    assert a[..] == spec;
    ret := a[..];
  }

  /** The loops of `eval_gradients`, in the same order as FillValues. */
  method FillGradients(b: Point, ih: real, degree: nat) returns (ret: seq<Vec2>)
    ensures Lists(ret, MonomialGradient(b, ih), degree + 1)
  {
    var a := new Vec2[Tri(degree + 1)];
    ghost var spec := ListsWitness(MonomialGradient(b, ih), degree + 1);
    var pos := 0;
    var k := 0;
    while k <= degree
      invariant k <= degree + 1
      invariant pos == Tri(k) <= a.Length
      invariant forall j :: 0 <= j < pos ==> a[j] == spec[j]
    {
      TriMonotone(k + 1, degree + 1);
      var i := 0;
      while i <= k
        invariant i <= k + 1
        invariant pos == Tri(k) + i <= Tri(k + 1) <= a.Length
        invariant forall j :: 0 <= j < pos ==> a[j] == spec[j]
      {
        var g := GradientAt(b, ih, k - i, i);
        a[pos] := g;
        assert spec[Idx(k, i)] == MonomialGradient(b, ih)(k - i, i);
        pos := pos + 1;
        i := i + 1;
      }
      k := k + 1;
    }
    assert a[..] == spec;
    ret := a[..];
  }

  /** DFactor is the chain-rule factor times the derivative of the power. */
  lemma DFactorIsDerivative(p: nat, s: real, ih: real)
    ensures DFactor(p, s, ih) == ih * DPow(s, p)
  {
    DPowClosedForm(s, p);
  }

  lemma ScaledExpansion(L: real, P: real, D: real, R: real, ih: real, t: real, G: real, Y: real)
    requires Expanded(L, P, D, R, t * ih)
    requires G == ih * D
    ensures Expanded(L * Y, P * Y, G * Y, ih * ih * R * Y, t)
  {
  }

  lemma ScaledExpansionY(L: real, P: real, D: real, R: real, ih: real, t: real, G: real, X: real)
    requires Expanded(L, P, D, R, t * ih)
    requires G == ih * D
    ensures Expanded(X * L, X * P, X * G, X * (ih * ih * R), t)
  {
  }

  /**
   * Along x, the monomial (p, q) moves by t times the x-component of its
   * gradient plus t^2 times a polynomial: that component is the derivative.
   */
  lemma MonomialDerivativeX(b: Point, ih: real, t: real, p: nat, q: nat)
    ensures Expanded(Pow(b.x + t * ih, p) * Pow(b.y, q), Pow(b.x, p) * Pow(b.y, q),
                     DFactor(p, b.x, ih) * Pow(b.y, q), ih * ih * PowRemainder(b.x, t * ih, p) * Pow(b.y, q), t)
  {
    PowExpansion(b.x, t * ih, p);
    DFactorIsDerivative(p, b.x, ih);
    ScaledExpansion(Pow(b.x + t * ih, p), Pow(b.x, p), DPow(b.x, p), PowRemainder(b.x, t * ih, p),
                    ih, t, DFactor(p, b.x, ih), Pow(b.y, q));
  }

  /** The same along y. */
  lemma MonomialDerivativeY(b: Point, ih: real, t: real, p: nat, q: nat)
    ensures Expanded(Pow(b.x, p) * Pow(b.y + t * ih, q), Pow(b.x, p) * Pow(b.y, q),
                     Pow(b.x, p) * DFactor(q, b.y, ih), Pow(b.x, p) * (ih * ih * PowRemainder(b.y, t * ih, q)), t)
  {
    PowExpansion(b.y, t * ih, q);
    DFactorIsDerivative(q, b.y, ih);
    ScaledExpansionY(Pow(b.y + t * ih, q), Pow(b.y, q), DPow(b.y, q), PowRemainder(b.y, t * ih, q),
                     ih, t, DFactor(q, b.y, ih), Pow(b.x, p));
  }

  /** The second-order term of MonomialDerivativeX. */
  function RemainderX(b: Point, ih: real, t: real, p: nat, q: nat): real
  {
    ih * ih * PowRemainder(b.x, t * ih, p) * Pow(b.y, q)
  }

  /** The second-order term of MonomialDerivativeY. */
  function RemainderY(b: Point, ih: real, t: real, p: nat, q: nat): real
  {
    Pow(b.x, p) * (ih * ih * PowRemainder(b.y, t * ih, q))
  }

  /** GradientEntry(b, ih, p, q).x is the derivative of MonomialEntry along the first coordinate. */
  lemma EntryDerivativeX(b: Point, ih: real, t: real, p: nat, q: nat)
    ensures Expanded(MonomialEntry(Point(b.x + t * ih, b.y), p, q), MonomialEntry(b, p, q),
                     GradientEntry(b, ih, p, q).x, RemainderX(b, ih, t, p, q), t)
  {
    MonomialDerivativeX(b, ih, t, p, q);
    ExpandedSubst(Pow(b.x + t * ih, p) * Pow(b.y, q), Pow(b.x, p) * Pow(b.y, q),
                  DFactor(p, b.x, ih) * Pow(b.y, q), ih * ih * PowRemainder(b.x, t * ih, p) * Pow(b.y, q),
                  MonomialEntry(Point(b.x + t * ih, b.y), p, q), MonomialEntry(b, p, q),
                  GradientEntry(b, ih, p, q).x, RemainderX(b, ih, t, p, q), t);
  }

  /** GradientEntry(b, ih, p, q).y is the derivative of MonomialEntry along the second coordinate. */
  lemma EntryDerivativeY(b: Point, ih: real, t: real, p: nat, q: nat)
    ensures Expanded(MonomialEntry(Point(b.x, b.y + t * ih), p, q), MonomialEntry(b, p, q),
                     GradientEntry(b, ih, p, q).y, RemainderY(b, ih, t, p, q), t)
  {
    MonomialDerivativeY(b, ih, t, p, q);
    ExpandedSubst(Pow(b.x, p) * Pow(b.y + t * ih, q), Pow(b.x, p) * Pow(b.y, q),
                  Pow(b.x, p) * DFactor(q, b.y, ih), Pow(b.x, p) * (ih * ih * PowRemainder(b.y, t * ih, q)),
                  MonomialEntry(Point(b.x, b.y + t * ih), p, q), MonomialEntry(b, p, q),
                  GradientEntry(b, ih, p, q).y, RemainderY(b, ih, t, p, q), t);
  }

  /** At the origin only the constant monomial is non-zero. */
  lemma MonomialAtOrigin(p: nat, q: nat)
    ensures MonomialEntry(Point(0.0, 0.0), p, q) == if p == 0 && q == 0 then 1.0 else 0.0
  {
    if p > 0 {
      assert Pow(0.0, p) == 0.0 * Pow(0.0, p - 1);
    } else if q > 0 {
      assert Pow(0.0, q) == 0.0 * Pow(0.0, q - 1);
    }
  }

  /** Entry Idx(k, i) of the value vector is the monomial (k - i, i). */
  lemma ValuesAt(b: Point, degree: nat, k: nat, i: nat)
    requires k <= degree && i <= k
    ensures Idx(k, i) < |MonomialValues(b, degree)|
    ensures MonomialValues(b, degree)[Idx(k, i)] == MonomialEntry(b, k - i, i)
  {
    EnumerateAt(Monomial(b), degree + 1, k, i);
  }

  /** Entry Idx(k, i) of the gradient vector is the gradient row of the monomial (k - i, i). */
  lemma GradientsAt(b: Point, ih: real, degree: nat, k: nat, i: nat)
    requires k <= degree && i <= k
    ensures Idx(k, i) < |MonomialGradients(b, ih, degree)|
    ensures MonomialGradients(b, ih, degree)[Idx(k, i)] == GradientEntry(b, ih, k - i, i)
  {
    EnumerateAt(MonomialGradient(b, ih), degree + 1, k, i);
  }

  /** The chain-rule factor d(sx)/dx = 2/h of the scaling. */
  function ChainFactor(h: Positive): real
  {
    2.0 / h
  }

  /** Moving pt by t along an axis moves its local coordinate by t * 2/h. */
  lemma ScaleShift(bar: Point, h: Positive, pt: Point, t: real)
    ensures Scale(bar, h, Point(pt.x + t, pt.y)) == Point(Scale(bar, h, pt).x + t * ChainFactor(h), Scale(bar, h, pt).y)
    ensures Scale(bar, h, Point(pt.x, pt.y + t)) == Point(Scale(bar, h, pt).x, Scale(bar, h, pt).y + t * ChainFactor(h))
  {
    ShiftQuotient(pt.x - bar.x, t, h);
    ShiftQuotient(pt.y - bar.y, t, h);
  }

  lemma ShiftQuotient(a: real, t: real, h: Positive)
    ensures (a + t) / (0.5 * h) == a / (0.5 * h) + t * (2.0 / h)
  {
  }

  class CellBasis {
    const bar: Point
    const h: Positive
    const degree: nat
    const size: nat := CellSize(degree)

    constructor(bar: Point, h: Positive, degree: nat)
      ensures this.bar == bar && this.h == h && this.degree == degree
      ensures size == CellSize(degree)
    {
      this.bar := bar;
      this.h := h;
      this.degree := degree;
    }

    /** The values `eval_basis` computes at pt. */
    function Values(pt: Point): seq<real>
    {
      MonomialValues(Scale(bar, h, pt), degree)
    }

    /** The rows `eval_gradients` computes at pt. */
    function Gradients(pt: Point): seq<Vec2>
    {
      MonomialGradients(Scale(bar, h, pt), ChainFactor(h), degree)
    }

    /** `eval_basis`: the monomials at the scaled coordinates of pt. */
    method EvalBasis(pt: Point) returns (ret: seq<real>)
      ensures |ret| == size
      ensures ret == Values(pt)
    {
      CellSizeIsBinomial(degree);
      var b := Scale(bar, h, pt);
      ret := FillValues(b, degree);
      EnumerateLists(Monomial(b), degree + 1);
      ListsUnique(ret, MonomialValues(b, degree), Monomial(b), degree + 1);
    }

    /** `eval_gradients`: one row (d/dx, d/dy) per basis function, in the same order. */
    method EvalGradients(pt: Point) returns (ret: seq<Vec2>)
      ensures |ret| == size
      ensures ret == Gradients(pt)
    {
      CellSizeIsBinomial(degree);
      var b := Scale(bar, h, pt);
      ret := FillGradients(b, ChainFactor(h), degree);
      EnumerateLists(MonomialGradient(b, ChainFactor(h)), degree + 1);
      ListsUnique(ret, MonomialGradients(b, ChainFactor(h), degree), MonomialGradient(b, ChainFactor(h)), degree + 1);
    }

    /** At the barycentre the constant is 1 and every other basis function vanishes. */
    lemma BasisAtBarycenter()
      ensures |Values(bar)| == size && size >= 1
      ensures Values(bar)[0] == 1.0
      ensures forall j :: 0 < j < size ==> Values(bar)[j] == 0.0
    {
      CellSizeIsBinomial(degree);
      assert Scale(bar, h, bar) == Point(0.0, 0.0);
      ValuesAt(Point(0.0, 0.0), degree, 0, 0);
      MonomialAtOrigin(0, 0);
      forall j | 0 < j < size
        ensures Values(bar)[j] == 0.0
      {
        var ki := Unrank(j);
        IdxBelow(ki.0, ki.1, degree + 1);
        ValuesAt(Point(0.0, 0.0), degree, ki.0, ki.1);
        MonomialAtOrigin(ki.0 - ki.1, ki.1);
      }
    }

    /** Entry Idx(k, i) of both vectors: the monomial (k - i, i) and its gradient row. */
    lemma EntryAt(pt: Point, k: nat, i: nat)
      requires k <= degree && i <= k
      ensures Idx(k, i) < size == |Values(pt)| == |Gradients(pt)|
      ensures Values(pt)[Idx(k, i)] == MonomialEntry(Scale(bar, h, pt), k - i, i)
      ensures Gradients(pt)[Idx(k, i)] == GradientEntry(Scale(bar, h, pt), ChainFactor(h), k - i, i)
    {
      CellSizeIsBinomial(degree);
      ValuesAt(Scale(bar, h, pt), degree, k, i);
      GradientsAt(Scale(bar, h, pt), ChainFactor(h), degree, k, i);
    }

    /** Entry j is the monomial (k - i, i), where (k, i) = Unrank(j). */
    lemma EntryUnranked(pt: Point, j: nat)
      requires j < size
      ensures Unrank(j).0 <= degree && |Values(pt)| == |Gradients(pt)| == size
      ensures Values(pt)[j] == MonomialEntry(Scale(bar, h, pt), Unrank(j).0 - Unrank(j).1, Unrank(j).1)
      ensures Gradients(pt)[j] == GradientEntry(Scale(bar, h, pt), ChainFactor(h), Unrank(j).0 - Unrank(j).1, Unrank(j).1)
    {
      CellSizeIsBinomial(degree);
      IdxBelow(Unrank(j).0, Unrank(j).1, degree + 1);
      EntryAt(pt, Unrank(j).0, Unrank(j).1);
    }

    /** Entry j at pt moved by t along x: the monomial at the moved local coordinates. */
    lemma ShiftedEntryX(pt: Point, t: real, j: nat)
      requires j < size
      ensures |Values(Point(pt.x + t, pt.y))| == size
      ensures Values(Point(pt.x + t, pt.y))[j]
           == MonomialEntry(Point(Scale(bar, h, pt).x + t * ChainFactor(h), Scale(bar, h, pt).y), Unrank(j).0 - Unrank(j).1, Unrank(j).1)
    {
      ScaleShift(bar, h, pt, t);
      EntryUnranked(Point(pt.x + t, pt.y), j);
    }

    /** Entry j at pt moved by t along y. */
    lemma ShiftedEntryY(pt: Point, t: real, j: nat)
      requires j < size
      ensures |Values(Point(pt.x, pt.y + t))| == size
      ensures Values(Point(pt.x, pt.y + t))[j]
           == MonomialEntry(Point(Scale(bar, h, pt).x, Scale(bar, h, pt).y + t * ChainFactor(h)), Unrank(j).0 - Unrank(j).1, Unrank(j).1)
    {
      ScaleShift(bar, h, pt, t);
      EntryUnranked(Point(pt.x, pt.y + t), j);
    }

    /**
     * `eval_gradients` is the derivative of `eval_basis` along x: moving pt
     * by t along x changes entry j by t times the x component of gradient
     * row j, plus t^2 times a polynomial in the local coordinates and t.
     */
    lemma GradientIsDerivativeX(pt: Point, t: real, j: nat)
      requires j < size
      ensures |Values(pt)| == |Gradients(pt)| == size
      ensures Expanded(Values(Point(pt.x + t, pt.y))[j], Values(pt)[j], Gradients(pt)[j].x,
                       RemainderX(Scale(bar, h, pt), ChainFactor(h), t, Unrank(j).0 - Unrank(j).1, Unrank(j).1), t)
    {
      var b, p, q := Scale(bar, h, pt), Unrank(j).0 - Unrank(j).1, Unrank(j).1;
      EntryDerivativeX(b, ChainFactor(h), t, p, q);
      EntryUnranked(pt, j);
      ShiftedEntryX(pt, t, j);
      ExpandedSubst(MonomialEntry(Point(b.x + t * ChainFactor(h), b.y), p, q), MonomialEntry(b, p, q),
                    GradientEntry(b, ChainFactor(h), p, q).x, RemainderX(b, ChainFactor(h), t, p, q),
                    Values(Point(pt.x + t, pt.y))[j], Values(pt)[j], Gradients(pt)[j].x, RemainderX(b, ChainFactor(h), t, p, q), t);
    }

    /** The same along y. */
    lemma GradientIsDerivativeY(pt: Point, t: real, j: nat)
      requires j < size
      ensures |Values(pt)| == |Gradients(pt)| == size
      ensures Expanded(Values(Point(pt.x, pt.y + t))[j], Values(pt)[j], Gradients(pt)[j].y,
                       RemainderY(Scale(bar, h, pt), ChainFactor(h), t, Unrank(j).0 - Unrank(j).1, Unrank(j).1), t)
    {
      var b, p, q := Scale(bar, h, pt), Unrank(j).0 - Unrank(j).1, Unrank(j).1;
      EntryDerivativeY(b, ChainFactor(h), t, p, q);
      EntryUnranked(pt, j);
      ShiftedEntryY(pt, t, j);
      ExpandedSubst(MonomialEntry(Point(b.x, b.y + t * ChainFactor(h)), p, q), MonomialEntry(b, p, q),
                    GradientEntry(b, ChainFactor(h), p, q).y, RemainderY(b, ChainFactor(h), t, p, q),
                    Values(Point(pt.x, pt.y + t))[j], Values(pt)[j], Gradients(pt)[j].y, RemainderY(b, ChainFactor(h), t, p, q), t);
    }
  }
}
