/**
 * Legendre polynomials, the reference the face basis is checked against:
 * P_0 = 1, P_1 = x and Bonnet's recurrence
 *   n P_n(x) = (2n - 1) x P_(n-1)(x) - (n - 1) P_(n-2)(x).
 */
module Polynomials {

  /** The value P_n(x), by Bonnet's recurrence. */
  function Legendre(n: nat, x: real): real
  {
    if n == 0 then 1.0
    else if n == 1 then x
    else ((2.0 * (n as real) - 1.0) * x * Legendre(n - 1, x) - ((n as real) - 1.0) * Legendre(n - 2, x)) / (n as real)
  }

  lemma AtOneStep(r: real)
    requires r > 0.0
    ensures ((2.0 * r - 1.0) * 1.0 * 1.0 - (r - 1.0) * 1.0) / r == 1.0
  {
  }

  /** P_n(1) = 1. */
  lemma {:induction false} LegendreAtOne(n: nat)
    ensures Legendre(n, 1.0) == 1.0
  {
    if n >= 2 {
      LegendreAtOne(n - 1);
      LegendreAtOne(n - 2);
      AtOneStep(n as real);
    }
  }

  /** Bonnet's recurrence, as an equation. */
  lemma LegendreStep(n: nat, x: real)
    requires n >= 2
    ensures Legendre(n, x) == ((2.0 * (n as real) - 1.0) * x * Legendre(n - 1, x) - ((n as real) - 1.0) * Legendre(n - 2, x)) / (n as real)
  {
  }
}
