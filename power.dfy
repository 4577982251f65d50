/**
 * The power utility of the basis engine (`iexp_pow`): exponentiation by
 * repeated squaring, proved equal to the plain power, plus the first-order
 * expansion of a power that the gradient formulas rely on.
 */
module Power {

  /** x raised to n, with 0^0 = 1. */
  function Pow(x: real, n: nat): real
  {
    if n == 0 then 1.0 else x * Pow(x, n - 1)
  }

  /** The exponent law x^(a+b) = x^a * x^b. */
  lemma {:induction false} PowAdd(x: real, a: nat, b: nat)
    ensures Pow(x, a + b) == Pow(x, a) * Pow(x, b)
  {
    if a > 0 {
      PowAdd(x, a - 1, b);
    }
  }

  /** Squaring the base halves the exponent: (x^2)^m = x^(2m), by the exponent law. */
  lemma {:induction false} PowOfSquare(x: real, m: nat)
    ensures Pow(x * x, m) == Pow(x, 2 * m)
  {
    if m > 0 {
      PowOfSquare(x, m - 1);
      PowAdd(x, 2, 2 * m - 2);
    }
  }

  /** Exponentiation by squaring, as the source writes it. */
  method IExpPow(x: real, n: nat) returns (r: real)
    ensures r == Pow(x, n)
  {
    if n == 0 {
      return 1.0;
    }
    var base, e, y := x, n, 1.0;
    while e > 1
      invariant e >= 1
      invariant y * Pow(base, e) == Pow(x, n)
      decreases e
    {
      if e % 2 == 0 {
        PowOfSquare(base, e / 2);
        base, e := base * base, e / 2;
      } else {
        PowOfSquare(base, (e - 1) / 2);
        y, base, e := base * y, base * base, (e - 1) / 2;
      }
    }
    r := base * y;
  }

  /**
   * The derivative of t |-> t^p at a, by the product rule on t^p = t * t^(p-1);
   * DPowClosedForm shows it equals p * a^(p-1), the form the gradients use.
   */
  function DPow(a: real, p: nat): real
  {
    if p == 0 then 0.0 else Pow(a, p - 1) + a * DPow(a, p - 1)
  }

  lemma {:induction false} DPowClosedForm(a: real, p: nat)
    ensures p > 0 ==> DPow(a, p) == (p as real) * Pow(a, p - 1)
  {
    if p > 1 {
      DPowClosedForm(a, p - 1);
      var X := Pow(a, p - 2);
      assert Pow(a, p - 1) == a * X;
      assert DPow(a, p - 1) == ((p - 1) as real) * X;
      assert DPow(a, p) == a * X + a * (((p - 1) as real) * X);
    }
  }

  /** The exact second-order remainder of the expansion of (a + t)^p. */
  function PowRemainder(a: real, t: real, p: nat): real
  {
    if p == 0 then 0.0 else DPow(a, p - 1) + (a + t) * PowRemainder(a, t, p - 1)
  }

  /** L = P + t * D + t^2 * R: a value, its first-order part and its remainder. */
  predicate Expanded(L: real, P: real, D: real, R: real, t: real)
  {
    L == P + t * D + t * t * R
  }

  /**
   * (a + t)^p = a^p + t * DPow(a, p) + t^2 * R: DPow is the derivative of the
   * power, because what remains is t^2 times a polynomial in a and t.
   */
  lemma {:induction false} PowExpansion(a: real, t: real, p: nat)
    ensures Expanded(Pow(a + t, p), Pow(a, p), DPow(a, p), PowRemainder(a, t, p), t)
  {
    if p == 0 {
      ExpansionBase(t, Pow(a + t, p), Pow(a, p), DPow(a, p), PowRemainder(a, t, p));
    } else {
      PowExpansion(a, t, p - 1);
      ExpansionInductive(a, t, p);
    }
  }

  lemma ExpansionInductive(a: real, t: real, p: nat)
    requires p > 0
    requires Expanded(Pow(a + t, p - 1), Pow(a, p - 1), DPow(a, p - 1), PowRemainder(a, t, p - 1), t)
    ensures Expanded(Pow(a + t, p), Pow(a, p), DPow(a, p), PowRemainder(a, t, p), t)
  {
    PowUnfold(a, t, p);
    ExpansionStep(a, t, Pow(a, p - 1), DPow(a, p - 1), PowRemainder(a, t, p - 1), Pow(a + t, p - 1),
      Pow(a + t, p), Pow(a, p), DPow(a, p), PowRemainder(a, t, p));
  }

  /** One unfolding of each of the four functions of the expansion. */
  lemma PowUnfold(a: real, t: real, p: nat)
    requires p > 0
    ensures Pow(a + t, p) == (a + t) * Pow(a + t, p - 1) && Pow(a, p) == a * Pow(a, p - 1)
    ensures DPow(a, p) == Pow(a, p - 1) + a * DPow(a, p - 1)
    ensures PowRemainder(a, t, p) == DPow(a, p - 1) + (a + t) * PowRemainder(a, t, p - 1)
  {
  }

  lemma ExpansionBase(t: real, L: real, P: real, D: real, R: real)
    requires L == 1.0 && P == 1.0 && D == 0.0 && R == 0.0
    ensures Expanded(L, P, D, R, t)
  {
  }

  /** Expanded depends only on the values of its arguments. */
  lemma ExpandedSubst(L: real, P: real, D: real, R: real, L': real, P': real, D': real, R': real, t: real)
    requires Expanded(L, P, D, R, t)
    requires L == L' && P == P' && D == D' && R == R'
    ensures Expanded(L', P', D', R', t)
  {
  }

  /** Expansions add up. */
  lemma ExpandedSum(L1: real, P1: real, D1: real, R1: real, L2: real, P2: real, D2: real, R2: real, t: real)
    requires Expanded(L1, P1, D1, R1, t) && Expanded(L2, P2, D2, R2, t)
    ensures Expanded(L1 + L2, P1 + P2, D1 + D2, R1 + R2, t)
  {
  }

  /** One step of the expansion, as an identity between plain reals. */
  lemma ExpansionStep(a: real, t: real, P: real, D: real, R: real, S: real,
                      L': real, P': real, D': real, R': real)
    requires Expanded(S, P, D, R, t)
    requires L' == (a + t) * S && P' == a * P && D' == P + a * D && R' == D + (a + t) * R
    ensures Expanded(L', P', D', R', t)
  {
  }

}
