/**
 * The face basis (`face_basis`): on a face of barycentre c, diameter h and
 * first vertex p0, with base = c - p0, the local coordinate of pt is
 * ep = 4 (base . (pt - c)) / h^2, and entry i of the basis (i <= degree <= 7)
 * is a hand-written polynomial of degree i in ep times a normalisation
 * constant. Degrees above 7 are rejected. The polynomials are shown to be
 * scaled Legendre polynomials and the constants to make the basis the
 * orthonormal Legendre basis divided by sqrt(h / 2).
 */
module FaceBases {
  import opened Common
  import opened Polynomials
  import opened Combinatorics

  /** The highest degree the source tabulates. */
  const MaxFaceDegree: nat := 7

  /** The static `size(degree)`. */
  function FaceSize(degree: nat): nat
  {
    degree + 1
  }

  /** The face size is the binomial C(degree + 1, 1): the monomials of one variable. */
  lemma FaceSizeIsBinomial(degree: nat)
    ensures FaceSize(degree) == Choose(degree + 1, 1)
  {
    ChooseOne(degree);
  }

  /** The polynomial part of entry i, exactly as the source writes it. */
  function FaceTerm(i: nat, ep: real): real
    requires i <= MaxFaceDegree
  {
    if i == 0 then 1.0
    else if i == 1 then ep
    else if i == 2 then 3.0 * ep * ep - 1.0
    else if i == 3 then 5.0 * ep * ep * ep - 3.0 * ep
    else if i == 4 then 35.0 * ep * ep * ep * ep - 30.0 * ep * ep + 3.0
    else if i == 5 then 63.0 * ep * ep * ep * ep * ep - 70.0 * ep * ep * ep + 15.0 * ep
    else if i == 6 then 231.0 * ep * ep * ep * ep * ep * ep - 315.0 * ep * ep * ep * ep + 105.0 * ep * ep - 5.0
    else 429.0 * ep * ep * ep * ep * ep * ep * ep - 693.0 * ep * ep * ep * ep * ep + 315.0 * ep * ep * ep - 35.0 * ep
  }

  /** The number under the source's square root in the constant of entry i. */
  function Radicand(i: nat): real
    requires i <= MaxFaceDegree
  {
    [1.0 / 2.0, 3.0 / 2.0, 5.0 / 8.0, 7.0 / 8.0, 9.0 / 128.0, 11.0 / 128.0, 13.0 / 2.0, 15.0 / 2.0][i]
  }

  /** The extra divisor of the last two entries. */
  function Divisor(i: nat): real
  {
    if i >= 6 then 16.0 else 1.0
  }

  /** FaceTerm(i) is LegendreScale(i) times the Legendre polynomial P_i. */
  function LegendreScale(i: nat): real
    requires i <= MaxFaceDegree
  {
    [1.0, 1.0, 2.0, 2.0, 8.0, 8.0, 16.0, 16.0][i]
  }

  /**
   * The square roots the source takes: coeff = sqrt(h / 2) and the eight
   * constants sqrt(Radicand(i)). They are inputs of the model, pinned by
   * RootsOf.
   */
  datatype Roots = Roots(coeff: real, norms: seq<real>)

  ghost predicate RootsOf(roots: Roots, h: Positive)
  {
    && roots.coeff > 0.0 && roots.coeff * roots.coeff == h / 2.0
    && |roots.norms| == MaxFaceDegree + 1
    && forall i :: 0 <= i <= MaxFaceDegree ==> roots.norms[i] > 0.0 && roots.norms[i] * roots.norms[i] == Radicand(i)
  }

  /** The source's `poly * sqrt(r) / d / coeff`. */
  function Scaled(poly: real, root: real, d: real, coeff: real): real
    requires d != 0.0 && coeff != 0.0
  {
    poly * root / d / coeff
  }

  /** Entry i of the basis at local coordinate ep. */
  function FaceEntry(i: nat, ep: real, roots: Roots): real
    requires i <= MaxFaceDegree && |roots.norms| == MaxFaceDegree + 1 && roots.coeff != 0.0
  {
    Scaled(FaceTerm(i, ep), roots.norms[i], Divisor(i), roots.coeff)
  }

  /** The constant that multiplies P_i(ep) / coeff in entry i. */
  function Normaliser(i: nat, roots: Roots): real
    requires i <= MaxFaceDegree && |roots.norms| == MaxFaceDegree + 1
  {
    LegendreScale(i) * roots.norms[i] / Divisor(i)
  }

  lemma Bonnet2(x: real, L1: real, L2: real, L: real)
    requires x == 1.0 * L1
    requires 1.0 == 1.0 * L2
    requires L == ((2.0 * (2 as real) - 1.0) * x * L1 - ((2 as real) - 1.0) * L2) / (2 as real)
    ensures 3.0 * x * x - 1.0 == 2.0 * L
  {
  }

  lemma Bonnet3(x: real, L1: real, L2: real, L: real)
    requires 3.0 * x * x - 1.0 == 2.0 * L1
    requires x == 1.0 * L2
    requires L == ((2.0 * (3 as real) - 1.0) * x * L1 - ((3 as real) - 1.0) * L2) / (3 as real)
    ensures 5.0 * x * x * x - 3.0 * x == 2.0 * L
  {
  }

  lemma Bonnet4(x: real, L1: real, L2: real, L: real)
    requires 5.0 * x * x * x - 3.0 * x == 2.0 * L1
    requires 3.0 * x * x - 1.0 == 2.0 * L2
    requires L == ((2.0 * (4 as real) - 1.0) * x * L1 - ((4 as real) - 1.0) * L2) / (4 as real)
    ensures 35.0 * x * x * x * x - 30.0 * x * x + 3.0 == 8.0 * L
  {
  }

  lemma Bonnet5(x: real, L1: real, L2: real, L: real)
    requires 35.0 * x * x * x * x - 30.0 * x * x + 3.0 == 8.0 * L1
    requires 5.0 * x * x * x - 3.0 * x == 2.0 * L2
    requires L == ((2.0 * (5 as real) - 1.0) * x * L1 - ((5 as real) - 1.0) * L2) / (5 as real)
    ensures 63.0 * x * x * x * x * x - 70.0 * x * x * x + 15.0 * x == 8.0 * L
  {
  }

  lemma Bonnet6(x: real, L1: real, L2: real, L: real)
    requires 63.0 * x * x * x * x * x - 70.0 * x * x * x + 15.0 * x == 8.0 * L1
    requires 35.0 * x * x * x * x - 30.0 * x * x + 3.0 == 8.0 * L2
    requires L == ((2.0 * (6 as real) - 1.0) * x * L1 - ((6 as real) - 1.0) * L2) / (6 as real)
    ensures 231.0 * x * x * x * x * x * x - 315.0 * x * x * x * x + 105.0 * x * x - 5.0 == 16.0 * L
  {
  }

  lemma Bonnet7(x: real, L1: real, L2: real, L: real)
    requires 231.0 * x * x * x * x * x * x - 315.0 * x * x * x * x + 105.0 * x * x - 5.0 == 16.0 * L1
    requires 63.0 * x * x * x * x * x - 70.0 * x * x * x + 15.0 * x == 8.0 * L2
    requires L == ((2.0 * (7 as real) - 1.0) * x * L1 - ((7 as real) - 1.0) * L2) / (7 as real)
    ensures 429.0 * x * x * x * x * x * x * x - 693.0 * x * x * x * x * x + 315.0 * x * x * x - 35.0 * x == 16.0 * L
  {
  }

  lemma LegendreDegree2(x: real)
    ensures 3.0 * x * x - 1.0 == 2.0 * Legendre(2, x)
  {
    LegendreStep(2, x);
    Bonnet2(x, Legendre(1, x), Legendre(0, x), Legendre(2, x));
  }

  lemma LegendreDegree3(x: real)
    ensures 5.0 * x * x * x - 3.0 * x == 2.0 * Legendre(3, x)
  {
    LegendreDegree2(x);
    LegendreStep(3, x);
    Bonnet3(x, Legendre(2, x), Legendre(1, x), Legendre(3, x));
  }

  lemma LegendreDegree4(x: real)
    ensures 35.0 * x * x * x * x - 30.0 * x * x + 3.0 == 8.0 * Legendre(4, x)
  {
    LegendreDegree3(x);
    LegendreDegree2(x);
    LegendreStep(4, x);
    Bonnet4(x, Legendre(3, x), Legendre(2, x), Legendre(4, x));
  }

  lemma LegendreDegree5(x: real)
    ensures 63.0 * x * x * x * x * x - 70.0 * x * x * x + 15.0 * x == 8.0 * Legendre(5, x)
  {
    LegendreDegree4(x);
    LegendreDegree3(x);
    LegendreStep(5, x);
    Bonnet5(x, Legendre(4, x), Legendre(3, x), Legendre(5, x));
  }

  lemma LegendreDegree6(x: real)
    ensures 231.0 * x * x * x * x * x * x - 315.0 * x * x * x * x + 105.0 * x * x - 5.0 == 16.0 * Legendre(6, x)
  {
    LegendreDegree5(x);
    LegendreDegree4(x);
    LegendreStep(6, x);
    Bonnet6(x, Legendre(5, x), Legendre(4, x), Legendre(6, x));
  }

  lemma LegendreDegree7(x: real)
    ensures 429.0 * x * x * x * x * x * x * x - 693.0 * x * x * x * x * x + 315.0 * x * x * x - 35.0 * x == 16.0 * Legendre(7, x)
  {
    LegendreDegree6(x);
    LegendreDegree5(x);
    LegendreStep(7, x);
    Bonnet7(x, Legendre(6, x), Legendre(5, x), Legendre(7, x));
  }

  lemma FaceTermDegree2(x: real)
    ensures FaceTerm(2, x) == 2.0 * Legendre(2, x)
  {
    LegendreDegree2(x);
  }

  lemma FaceTermDegree3(x: real)
    ensures FaceTerm(3, x) == 2.0 * Legendre(3, x)
  {
    LegendreDegree3(x);
  }

  lemma FaceTermDegree4(x: real)
    ensures FaceTerm(4, x) == 8.0 * Legendre(4, x)
  {
    LegendreDegree4(x);
  }

  lemma FaceTermDegree5(x: real)
    ensures FaceTerm(5, x) == 8.0 * Legendre(5, x)
  {
    LegendreDegree5(x);
  }

  lemma FaceTermDegree6(x: real)
    ensures FaceTerm(6, x) == 16.0 * Legendre(6, x)
  {
    LegendreDegree6(x);
  }

  lemma FaceTermDegree7(x: real)
    ensures FaceTerm(7, x) == 16.0 * Legendre(7, x)
  {
    LegendreDegree7(x);
  }

  /** The source's polynomial of entry i is LegendreScale(i) P_i. */
  lemma FaceTermIsLegendre(i: nat, x: real)
    requires i <= MaxFaceDegree
    ensures FaceTerm(i, x) == LegendreScale(i) * Legendre(i, x)
  {
    if i == 2 {
      FaceTermDegree2(x);
    }     else if i == 3 {
      FaceTermDegree3(x);
    }     else if i == 4 {
      FaceTermDegree4(x);
    }     else if i == 5 {
      FaceTermDegree5(x);
    }     else if i == 6 {
      FaceTermDegree6(x);
    }     else if i == 7 {
      FaceTermDegree7(x);
    }
  }

  /** Entry i is the Legendre polynomial P_i(ep), scaled as the source scales entry i. */
  lemma EntryIsLegendre(i: nat, ep: real, roots: Roots)
    requires i <= MaxFaceDegree && |roots.norms| == MaxFaceDegree + 1 && roots.coeff != 0.0
    ensures FaceEntry(i, ep, roots) == Scaled(LegendreScale(i) * Legendre(i, ep), roots.norms[i], Divisor(i), roots.coeff)
  {
    FaceTermIsLegendre(i, ep);
  }

  /**
   * Normaliser(i)^2 = (2i + 1) / 2, the inverse of the squared norm of P_i on
   * [-1, 1]: with coeff^2 = h / 2, the half-length of the face, the entries
   * are the orthonormal Legendre basis on the face.
   */
  lemma NormaliserSquared(i: nat, roots: Roots, h: Positive)
    requires i <= MaxFaceDegree && RootsOf(roots, h)
    ensures Normaliser(i, roots) > 0.0
    ensures Normaliser(i, roots) * Normaliser(i, roots) == (2.0 * (i as real) + 1.0) / 2.0
  {
    SquareOfScaled(LegendreScale(i), roots.norms[i], Divisor(i), Radicand(i));
    ScaleTable(i);
  }

  lemma SquareOfScaled(s: real, n: real, d: real, r: real)
    requires s > 0.0 && n > 0.0 && d > 0.0 && n * n == r
    ensures s * n / d > 0.0
    ensures (s * n / d) * (s * n / d) == s * s * r / (d * d)
  {
    var q := s * n / d;
    assert q * d == s * n;
    assert (q * q) * (d * d) == (q * d) * (q * d);
    assert (q * q) * (d * d) == s * s * r;
  }

  /** LegendreScale(i)^2 Radicand(i) / Divisor(i)^2 = (2i + 1) / 2, entry by entry. */
  lemma ScaleTable(i: nat)
    requires i <= MaxFaceDegree
    ensures LegendreScale(i) * LegendreScale(i) * Radicand(i) / (Divisor(i) * Divisor(i)) == (2.0 * (i as real) + 1.0) / 2.0
  {
    if i == 0 {
    } else if i == 1 {
    } else if i == 2 {
    } else if i == 3 {
    } else if i == 4 {
    } else if i == 5 {
    } else if i == 6 {
    } else {
    }
  }

  class FaceBasis {
    const faceBar: Point
    const faceH: Positive
    const base: Point
    const degree: nat
    const size: nat := FaceSize(degree)

    /** The geometry arrives as the face's barycentre, diameter and first vertex. */
    constructor(faceBar: Point, faceH: Positive, firstPoint: Point, degree: nat)
      ensures this.faceBar == faceBar && this.faceH == faceH && this.degree == degree
      ensures base == Point(faceBar.x - firstPoint.x, faceBar.y - firstPoint.y)
      ensures size == degree + 1
    {
      this.faceBar := faceBar;
      this.faceH := faceH;
      this.base := Point(faceBar.x - firstPoint.x, faceBar.y - firstPoint.y);
      this.degree := degree;
    }

    /**
     * The local coordinate ep of pt: 4 (base . (pt - faceBar)) / h^2. It is
     * 0 at the barycentre and has the sign of the projection on base.
     */
    function Ep(pt: Point): (e: real)
      ensures pt == faceBar ==> e == 0.0
      ensures e > 0.0 <==> Dot(base, Minus(pt, faceBar)) > 0.0
      ensures e < 0.0 <==> Dot(base, Minus(pt, faceBar)) < 0.0
    {
      4.0 * Dot(base, Minus(pt, faceBar)) / Square(faceH)
    }

    /** The values `eval_basis` computes at pt, for a supported degree. */
    function Values(pt: Point, roots: Roots): seq<real>
      requires degree <= MaxFaceDegree && |roots.norms| == MaxFaceDegree + 1 && roots.coeff != 0.0
    {
      seq(size, i requires 0 <= i < size => FaceEntry(i, Ep(pt), roots))
    }

    /**
     * `eval_basis`: the entries are written one by one, returning as soon as
     * the degree is reached; a degree above 7 runs past the last entry and is
     * an error.
     */
    method EvalBasis(pt: Point, roots: Roots) returns (r: Result<seq<real>>)
      requires RootsOf(roots, faceH)
      ensures degree <= MaxFaceDegree ==> r == Ok(Values(pt, roots))
      ensures degree > MaxFaceDegree ==> r == Err(UnsupportedDegree(degree))
    {
      var ret := new real[size];
      var ep := Ep(pt);
      ret[0] := FaceEntry(0, ep, roots);
      if degree == 0 {
        FilledValues(pt, roots, ret[..]);
        return Ok(ret[..]);
      }
      ret[1] := FaceEntry(1, ep, roots);
      if degree == 1 {
        FilledValues(pt, roots, ret[..]);
        return Ok(ret[..]);
      }
      ret[2] := FaceEntry(2, ep, roots);
      if degree == 2 {
        FilledValues(pt, roots, ret[..]);
        return Ok(ret[..]);
      }
      ret[3] := FaceEntry(3, ep, roots);
      if degree == 3 {
        FilledValues(pt, roots, ret[..]);
        return Ok(ret[..]);
      }
      ret[4] := FaceEntry(4, ep, roots);
      if degree == 4 {
        FilledValues(pt, roots, ret[..]);
        return Ok(ret[..]);
      }
      ret[5] := FaceEntry(5, ep, roots);
      if degree == 5 {
        FilledValues(pt, roots, ret[..]);
        return Ok(ret[..]);
      }
      ret[6] := FaceEntry(6, ep, roots);
      if degree == 6 {
        FilledValues(pt, roots, ret[..]);
        return Ok(ret[..]);
      }
      ret[7] := FaceEntry(7, ep, roots);
      if degree == 7 {
        FilledValues(pt, roots, ret[..]);
        return Ok(ret[..]);
      }
      return Err(UnsupportedDegree(degree));
    }
  
    lemma FilledValues(pt: Point, roots: Roots, s: seq<real>)
      requires degree <= MaxFaceDegree && |roots.norms| == MaxFaceDegree + 1 && roots.coeff != 0.0
      requires |s| == size && forall j :: 0 <= j < size ==> s[j] == FaceEntry(j, Ep(pt), roots)
      ensures s == Values(pt, roots)
    {
    }

    /** Every entry of the basis is its Legendre polynomial at ep, normalised. */
    lemma ValuesAreLegendre(pt: Point, roots: Roots)
      requires degree <= MaxFaceDegree && RootsOf(roots, faceH)
      ensures |Values(pt, roots)| == degree + 1
      ensures forall i :: 0 <= i <= degree ==>
        Values(pt, roots)[i] == Scaled(LegendreScale(i) * Legendre(i, Ep(pt)), roots.norms[i], Divisor(i), roots.coeff)
    {
      forall i | 0 <= i <= degree
        ensures Values(pt, roots)[i] == Scaled(LegendreScale(i) * Legendre(i, Ep(pt)), roots.norms[i], Divisor(i), roots.coeff)
      {
        EntryIsLegendre(i, Ep(pt), roots);
      }
    }

    /**
     * On a segment face the barycentre is the midpoint, so |base| = h / 2:
     * ep is -1 at the first vertex, faceBar - base, and 1 at the other,
     * faceBar + base.
     */
    lemma EpAtVertices()
      requires 4.0 * Dot(base, base) == Square(faceH)
      ensures Ep(Minus(faceBar, base)) == -1.0
      ensures Ep(Point(faceBar.x + base.x, faceBar.y + base.y)) == 1.0
    {
      EpAt(Minus(faceBar, base), -1.0);
      EpAt(Point(faceBar.x + base.x, faceBar.y + base.y), 1.0);
    }

    /** Ep is k at a point whose offset from the barycentre is k base. */
    lemma EpAt(pt: Point, k: real)
      requires 4.0 * Dot(base, base) == Square(faceH)
      requires Minus(pt, faceBar) == Point(k * base.x, k * base.y)
      ensures Ep(pt) == k
    {
      DotScaled(base, Minus(pt, faceBar), k);
      Quarter(Dot(base, Minus(pt, faceBar)), k, Dot(base, base), Square(faceH));
    }
  }

  lemma DotScaled(a: Point, b: Point, k: real)
    requires b == Point(k * a.x, k * a.y)
    ensures Dot(a, b) == k * Dot(a, a)
  {
  }

  lemma Quarter(a: real, k: real, s: real, d: real)
    requires a == k * s && 4.0 * s == d && d > 0.0
    ensures 4.0 * a / d == k
  {
    assert 4.0 * a == k * d;
  }
}
