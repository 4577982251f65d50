/**
 * The dimension formula of the polynomial spaces (`basis_size`): the
 * number of monomials of degree at most k in d variables is the binomial
 * coefficient C(k + d, d). The source computes it as the rising product
 * (k+1)(k+2)...(k+d) divided by d!, and that division is exact.
 */
module Combinatorics {

  function Fact(n: nat): (r: nat)
    ensures r >= 1
  {
    if n == 0 then 1 else n * Fact(n - 1)
  }

  /** Binomial coefficient, by Pascal's rule: the reference definition. */
  function Choose(n: nat, r: nat): nat
  {
    if r == 0 then 1
    else if n == 0 then 0
    else Choose(n - 1, r - 1) + Choose(n - 1, r)
  }

  /** (k+1)(k+2)...(k+d), the numerator the source accumulates. */
  function Rising(k: nat, d: nat): nat
  {
    if d == 0 then 1 else Rising(k, d - 1) * (k + d)
  }

  lemma {:induction false} ChooseAbove(n: nat, r: nat)
    requires r > n
    ensures Choose(n, r) == 0
  {
    if n > 0 {
      ChooseAbove(n - 1, r - 1);
      ChooseAbove(n - 1, r);
    }
  }

  /** C(n, r) * r! * (n - r)! == n!. */
  lemma {:induction false} ChooseFactorial(n: nat, r: nat)
    requires r <= n
    ensures Choose(n, r) * Fact(r) * Fact(n - r) == Fact(n)
  {
    if r > 0 {
      var A, B := Choose(n - 1, r - 1), Choose(n - 1, r);
      ChooseFactorial(n - 1, r - 1);
      assert Fact(r) == r * Fact(r - 1);
      assert Fact(n) == n * Fact(n - 1);
      if r < n {
        ChooseFactorial(n - 1, r);
        assert Fact(n - r) == (n - r) * Fact(n - 1 - r);
        PascalStep(A, B, r, n, Fact(r - 1), Fact(n - 1 - r), Fact(n - 1));
      } else {
        ChooseAbove(n - 1, r);
        PascalTop(A, r, Fact(r - 1), Fact(n - 1));
      }
    }
  }

  lemma PascalStep(A: int, B: int, r: int, n: int, f1: int, g2: int, F: int)
    requires A * f1 * ((n - r) * g2) == F
    requires B * (r * f1) * g2 == F
    ensures (A + B) * (r * f1) * ((n - r) * g2) == n * F
  {
    calc {
      (A + B) * (r * f1) * ((n - r) * g2);
      r * (A * f1 * ((n - r) * g2)) + (n - r) * (B * (r * f1) * g2);
      r * F + (n - r) * F;
    }
  }

  lemma PascalTop(A: int, r: int, f1: int, F: int)
    requires A * f1 * 1 == F
    ensures (A + 0) * (r * f1) * 1 == r * F
  {
    assert (A + 0) * (r * f1) * 1 == r * (A * f1 * 1);
  }

  lemma {:induction false} RisingFact(k: nat, d: nat)
    ensures Rising(k, d) * Fact(k) == Fact(k + d)
  {
    if d > 0 {
      RisingFact(k, d - 1);
      Regroup(Rising(k, d - 1), k + d, Fact(k), Fact(k + d - 1));
    }
  }

  /** (r * m) * f == m * p once p == r * f. */
  lemma Regroup(r: int, m: int, f: int, p: int)
    requires p == r * f
    ensures (r * m) * f == m * p
  {
  }

  lemma Cancel(x: int, y: int, f: int)
    requires f > 0 && x * f == y * f
    ensures x == y
  {
  }

  /** The rising product is C(k + d, d) times d!, so dividing by d! is exact. */
  lemma RisingChoose(k: nat, d: nat)
    ensures Rising(k, d) == Choose(k + d, d) * Fact(d)
  {
    ChooseFactorial(k + d, d);
    RisingFact(k, d);
    assert (Choose(k + d, d) * Fact(d)) * Fact(k) == Rising(k, d) * Fact(k);
    Cancel(Choose(k + d, d) * Fact(d), Rising(k, d), Fact(k));
  }

  lemma ExactQuotient(a: int, b: int, c: int)
    requires b > 0 && a == c * b
    ensures a / b == c && a % b == 0
  {
    QuotientUnique(a, b, c, a / b, a % b);
  }

  lemma QuotientUnique(a: int, b: int, c: int, q: int, m: int)
    requires b > 0 && a == c * b && a == q * b + m && 0 <= m < b
    ensures q == c && m == 0
  {
    assert (c - q) * b == m;
    if c - q >= 1 {
      MulAtLeast(c - q, b);
    } else if c - q <= -1 {
      MulAtLeast(q - c, b);
    }
  }

  lemma MulAtLeast(x: int, b: int)
    requires x >= 1 && b > 0
    ensures x * b >= b
  {
  }

  /** Largest value of the source's `size_t` plus one. */
  const SizeBound: nat := 0x1_0000_0000_0000_0000

  /**
   * `basis_size(k, d)`: the source's loop. The precondition stands for the
   * absence of `size_t` overflow in the numerator.
   */
  method BasisSize(k: nat, d: nat) returns (r: nat)
    requires Rising(k, d) < SizeBound
    ensures r == Choose(k + d, d)
  {
    var num, den := 1, 1;
    for i := 1 to d + 1
      invariant num == Rising(k, i - 1)
      invariant den == Fact(i - 1)
    {
      num := num * (k + i);
      den := den * i;
    }
    RisingChoose(k, d);
    ExactQuotient(num, den, Choose(k + d, d));
    r := num / den;
  }

  /** The number of monomials in two variables of degree at most k. */
  lemma {:induction false} ChooseTwo(k: nat)
    ensures Choose(k + 2, 2) == (k + 2) * (k + 1) / 2
  {
    RisingChoose(k, 2);
    assert Rising(k, 1) == k + 1;
    assert Rising(k, 2) == (k + 1) * (k + 2);
    ExactQuotient((k + 2) * (k + 1), 2, Choose(k + 2, 2));
  }

  /** The number of monomials in one variable of degree at most k. */
  lemma {:induction false} ChooseOne(k: nat)
    ensures Choose(k + 1, 1) == k + 1
  {
    RisingChoose(k, 1);
  }

}
