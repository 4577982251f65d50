/**
 * The Lagrange basis on the unit interval (`cell_basis_Lagrange_1d_reference_new`):
 * for nodes x_0, ..., x_(N-1), basis function k is
 *   l_k(x) = prod_(j != k) (x - x_j) / (x_k - x_j),
 * which is 1 at x_k and 0 at every other node. Its derivative is
 *   l_k'(x) = prod_(j != k) 1 / (x_k - x_j) * sum_(m != k) prod_(j != k, m) (x - x_j),
 * and the second derivative is provided for degrees 2 to 4 only.
 *
 * Products and sums skip a set of excluded node indices; each is defined by
 * recursion on how many nodes it has seen, in the order the loops visit them.
 */
module IntervalLagrange {
  import opened Common
  import opened Power
  import opened ReferenceNodes

  /** x_k - x_j, the denominator of the factor for node j in basis function k. */
  function Gap(xs: seq<real>, k: nat, j: nat): real
    requires k < |xs| && j < |xs|
  {
    xs[k] - xs[j]
  }

  /** Pairwise distinct nodes: every denominator x_k - x_j is non-zero. */
  predicate DistinctNodes(xs: seq<real>)
  {
    forall i, j {:trigger Gap(xs, i, j)} :: 0 <= i < |xs| && 0 <= j < |xs| && i != j ==> Gap(xs, i, j) != 0.0
  }

  /** prod_(j < n, j != k) (x - x_j) / (x_k - x_j): the basis product over the first n nodes. */
  function Basis(x: real, xs: seq<real>, n: nat, k: nat): real
    requires DistinctNodes(xs) && n <= |xs| && k < |xs|
  {
    if n == 0 then 1.0
    else if n - 1 == k then Basis(x, xs, n - 1, k)
    else Basis(x, xs, n - 1, k) * ((x - xs[n - 1]) / Gap(xs, k, n - 1))
  }

  /** prod_(j < n, j != k) 1 / (x_k - x_j): the constant factor of basis function k. */
  function InvProd(xs: seq<real>, n: nat, k: nat): real
    requires DistinctNodes(xs) && n <= |xs| && k < |xs|
  {
    if n == 0 then 1.0
    else if n - 1 == k then InvProd(xs, n - 1, k)
    else InvProd(xs, n - 1, k) * (1.0 / Gap(xs, k, n - 1))
  }

  /** prod_(j < n, j not in ex) (x - x_j). */
  function Prod(x: real, xs: seq<real>, n: nat, ex: set<nat>): real
    requires n <= |xs|
  {
    if n == 0 then 1.0
    else if n - 1 in ex then Prod(x, xs, n - 1, ex)
    else Prod(x, xs, n - 1, ex) * (x - xs[n - 1])
  }

  /**
   * sum_(m < M, m not in ex) prod_(j < N, j not in ex + {m}) (x - x_j). With
   * M == N this is the derivative of Prod(x, xs, N, ex) (ProductRule).
   */
  function DSum(x: real, xs: seq<real>, M: nat, N: nat, ex: set<nat>): real
    requires M <= N <= |xs|
  {
    if M == 0 then 0.0
    else if M - 1 in ex then DSum(x, xs, M - 1, N, ex)
    else DSum(x, xs, M - 1, N, ex) + Prod(x, xs, N, ex + {M - 1})
  }

  /** The second-order remainder of Prod(_, xs, n, ex) for a step t. */
  function PRem(x: real, t: real, xs: seq<real>, n: nat, ex: set<nat>): real
    requires n <= |xs|
  {
    if n == 0 then 0.0
    else if n - 1 in ex then PRem(x, t, xs, n - 1, ex)
    else DSum(x, xs, n - 1, n - 1, ex) + ((x + t) - xs[n - 1]) * PRem(x, t, xs, n - 1, ex)
  }

  /** sum_(m < M, m not in ex) of the derivative of Prod(_, xs, N, ex + {m}). */
  function D2Sum(x: real, xs: seq<real>, M: nat, N: nat, ex: set<nat>): real
    requires M <= N <= |xs|
  {
    if M == 0 then 0.0
    else if M - 1 in ex then D2Sum(x, xs, M - 1, N, ex)
    else D2Sum(x, xs, M - 1, N, ex) + DSum(x, xs, N, N, ex + {M - 1})
  }

  /** The remainders matching D2Sum. */
  function D2Rem(x: real, t: real, xs: seq<real>, M: nat, N: nat, ex: set<nat>): real
    requires M <= N <= |xs|
  {
    if M == 0 then 0.0
    else if M - 1 in ex then D2Rem(x, t, xs, M - 1, N, ex)
    else D2Rem(x, t, xs, M - 1, N, ex) + PRem(x, t, xs, N, ex + {M - 1})
  }

  /** sum_(m < M, m != k) 2 (x - x_m): the sum the degree-3 second derivative forms. */
  function LinSum(x: real, xs: seq<real>, M: nat, k: nat): real
    requires M <= |xs|
  {
    if M == 0 then 0.0
    else if M - 1 == k then LinSum(x, xs, M - 1, k)
    else LinSum(x, xs, M - 1, k) + 2.0 * (x - xs[M - 1])
  }

  /** sum_(a < b < M, a != k, b != k) 2 (x - x_a)(x - x_b): the degree-4 sum over pairs of nodes. */
  function PairSum(x: real, xs: seq<real>, M: nat, k: nat): real
    requires M <= |xs|
  {
    if M == 0 then 0.0
    else if M - 1 == k then PairSum(x, xs, M - 1, k)
    else PairSum(x, xs, M - 1, k) + LinSum(x, xs, M - 1, k) * (x - xs[M - 1])
  }

  /** The r-th node other than node k, counting from 0. */
  function Other(k: nat, r: nat): (j: nat)
    ensures j != k
    ensures r < k ==> j == r
    ensures k <= r ==> j == r + 1
  {
    if r < k then r else r + 1
  }

  /**
   * sum_(1 <= s <= c) 2 (x - x_p)(x - x_q) with p, q the a-th and (a+s)-th
   * nodes other than k: the terms the degree-4 enumeration adds for one `pos`.
   */
  function RowSum(x: real, xs: seq<real>, k: nat, a: nat, c: nat): real
    requires Other(k, a + c) < |xs|
  {
    if c == 0 then 0.0
    else RowSum(x, xs, k, a, c - 1) + 2.0 * ((x - xs[Other(k, a)]) * (x - xs[Other(k, a + c)]))
  }

  /** The rows for the first a nodes other than k, each paired with every later one. */
  function RowsSum(x: real, xs: seq<real>, k: nat, a: nat): real
    requires 2 <= |xs| && k < |xs| && a <= |xs| - 2
  {
    if a == 0 then 0.0
    else RowsSum(x, xs, k, a - 1) + RowSum(x, xs, k, a - 1, |xs| - 1 - a)
  }

  // ---------------------------------------------------------------------------
  // Products and sums.

  /** C = A * B, kept as a predicate so that the solver does not expand it unasked. */
  predicate IsProduct(C: real, A: real, B: real)
  {
    C == A * B
  }

  lemma FactorStep(C: real, A: real, B: real, u: real, v: real, C': real, A': real, B': real)
    requires v != 0.0 && IsProduct(C, A, B)
    requires IsProduct(C', C, u / v) && IsProduct(A', A, 1.0 / v) && IsProduct(B', B, u)
    ensures IsProduct(C', A', B')
  {
  }

  /** One factor of basis function k, of its constant and of its polynomial. */
  lemma Unfold(x: real, xs: seq<real>, n: nat, k: nat)
    requires DistinctNodes(xs) && 1 <= n <= |xs| && k < |xs| && n - 1 != k
    ensures Gap(xs, k, n - 1) != 0.0
    ensures IsProduct(Basis(x, xs, n, k), Basis(x, xs, n - 1, k), (x - xs[n - 1]) / Gap(xs, k, n - 1))
    ensures IsProduct(InvProd(xs, n, k), InvProd(xs, n - 1, k), 1.0 / Gap(xs, k, n - 1))
    ensures IsProduct(Prod(x, xs, n, {k}), Prod(x, xs, n - 1, {k}), x - xs[n - 1])
  {
    assert n - 1 !in {k};
  }

  /** The basis product splits into its constant factor and its polynomial. */
  lemma {:induction false} BasisFactors(x: real, xs: seq<real>, n: nat, k: nat)
    requires DistinctNodes(xs) && n <= |xs| && k < |xs|
    ensures IsProduct(Basis(x, xs, n, k), InvProd(xs, n, k), Prod(x, xs, n, {k}))
  {
    if n > 0 {
      BasisFactors(x, xs, n - 1, k);
      if n - 1 != k {
        Unfold(x, xs, n, k);
        FactorStep(Basis(x, xs, n - 1, k), InvProd(xs, n - 1, k), Prod(x, xs, n - 1, {k}), x - xs[n - 1], Gap(xs, k, n - 1),
          Basis(x, xs, n, k), InvProd(xs, n, k), Prod(x, xs, n, {k}));
      }
    }
  }

  /** At its own node every factor of basis function k is 1. */
  lemma {:induction false} BasisAtOwnNode(xs: seq<real>, n: nat, k: nat)
    requires DistinctNodes(xs) && n <= |xs| && k < |xs|
    ensures Basis(xs[k], xs, n, k) == 1.0
  {
    if n > 0 {
      BasisAtOwnNode(xs, n - 1, k);
    }
  }

  /** At another node j the factor for j is 0, and so is the whole product. */
  lemma {:induction false} BasisAtOtherNode(xs: seq<real>, n: nat, k: nat, j: nat)
    requires DistinctNodes(xs) && n <= |xs| && k < |xs| && j < n && j != k
    ensures Basis(xs[j], xs, n, k) == 0.0
  {
    if n - 1 != j {
      BasisAtOtherNode(xs, n - 1, k, j);
    } else {
      assert (xs[j] - xs[n - 1]) / Gap(xs, k, n - 1) == 0.0;
    }
  }

  /** A node index at or beyond n is not seen by the first n factors. */
  lemma {:induction false} ProdIgnores(x: real, xs: seq<real>, n: nat, ex: set<nat>, m: nat)
    requires n <= |xs| && n <= m
    ensures Prod(x, xs, n, ex + {m}) == Prod(x, xs, n, ex)
  {
    if n > 0 {
      ProdIgnores(x, xs, n - 1, ex, m);
    }
  }

  /** Taking one more node into every product of a DSum. */
  lemma {:induction false} DSumShift(x: real, xs: seq<real>, M: nat, n: nat, ex: set<nat>)
    requires 1 <= n <= |xs| && M <= n - 1
    ensures DSum(x, xs, M, n, ex)
         == if n - 1 in ex then DSum(x, xs, M, n - 1, ex) else DSum(x, xs, M, n - 1, ex) * (x - xs[n - 1])
  {
    if M > 0 {
      DSumShift(x, xs, M - 1, n, ex);
      assert n - 1 in ex + {M - 1} <==> n - 1 in ex;
    }
  }

  /** The product rule, as a recurrence for the derivative sum. */
  lemma DSumDiag(x: real, xs: seq<real>, n: nat, ex: set<nat>)
    requires 1 <= n <= |xs|
    ensures DSum(x, xs, n, n, ex)
         == if n - 1 in ex then DSum(x, xs, n - 1, n - 1, ex)
            else DSum(x, xs, n - 1, n - 1, ex) * (x - xs[n - 1]) + Prod(x, xs, n - 1, ex)
  {
    DSumShift(x, xs, n - 1, n, ex);
    if n - 1 !in ex {
      assert DSum(x, xs, n, n, ex) == DSum(x, xs, n - 1, n, ex) + Prod(x, xs, n, ex + {n - 1});
      assert n - 1 in ex + {n - 1};
      assert Prod(x, xs, n, ex + {n - 1}) == Prod(x, xs, n - 1, ex + {n - 1});
      ProdIgnores(x, xs, n - 1, ex, n - 1);
    }
  }

  /**
   * Prod(x + t) = Prod(x) + t DSum(x) + t^2 PRem(x, t): DSum is the
   * derivative of the product of the factors not excluded.
   */
  lemma {:induction false} ProductRule(x: real, t: real, xs: seq<real>, n: nat, ex: set<nat>)
    requires n <= |xs|
    ensures Expanded(Prod(x + t, xs, n, ex), Prod(x, xs, n, ex), DSum(x, xs, n, n, ex), PRem(x, t, xs, n, ex), t)
  {
    if n == 0 {
      ExpansionBase(t, Prod(x + t, xs, n, ex), Prod(x, xs, n, ex), DSum(x, xs, n, n, ex), PRem(x, t, xs, n, ex));
    } else {
      ProductRule(x, t, xs, n - 1, ex);
      ProductRuleStep(x, t, xs, n, ex);
    }
  }

  /** One more node: a skipped node changes nothing, any other multiplies by its factor. */
  lemma ProductRuleStep(x: real, t: real, xs: seq<real>, n: nat, ex: set<nat>)
    requires 1 <= n <= |xs|
    requires Expanded(Prod(x + t, xs, n - 1, ex), Prod(x, xs, n - 1, ex), DSum(x, xs, n - 1, n - 1, ex), PRem(x, t, xs, n - 1, ex), t)
    ensures Expanded(Prod(x + t, xs, n, ex), Prod(x, xs, n, ex), DSum(x, xs, n, n, ex), PRem(x, t, xs, n, ex), t)
  {
    var S, P, D, R := Prod(x + t, xs, n - 1, ex), Prod(x, xs, n - 1, ex), DSum(x, xs, n - 1, n - 1, ex), PRem(x, t, xs, n - 1, ex);
    DSumDiag(x, xs, n, ex);
    if n - 1 in ex {
      ExpandedSubst(S, P, D, R, Prod(x + t, xs, n, ex), Prod(x, xs, n, ex), DSum(x, xs, n, n, ex), PRem(x, t, xs, n, ex), t);
    } else {
      FactorExpansion(x, t, xs[n - 1], S, P, D, R, Prod(x + t, xs, n, ex), Prod(x, xs, n, ex), DSum(x, xs, n, n, ex), PRem(x, t, xs, n, ex));
    }
  }

  /** Multiplying an expansion by one more factor (x - y). */
  lemma FactorExpansion(x: real, t: real, y: real, S: real, P: real, D: real, R: real,
                        L': real, P': real, D': real, R': real)
    requires Expanded(S, P, D, R, t)
    requires L' == S * ((x + t) - y) && P' == P * (x - y) && D' == D * (x - y) + P && R' == D + ((x + t) - y) * R
    ensures Expanded(L', P', D', R', t)
  {
    ExpansionStep(x - y, t, P, D, R, S, L', P', D', R');
  }

  /** Summing the product rule over the products of a DSum. */
  lemma {:induction false} SumRule(x: real, t: real, xs: seq<real>, M: nat, N: nat, ex: set<nat>)
    requires M <= N <= |xs|
    ensures Expanded(DSum(x + t, xs, M, N, ex), DSum(x, xs, M, N, ex), D2Sum(x, xs, M, N, ex), D2Rem(x, t, xs, M, N, ex), t)
  {
    if M == 0 {
    } else {
      SumRule(x, t, xs, M - 1, N, ex);
      if M - 1 !in ex {
        ProductRule(x, t, xs, N, ex + {M - 1});
        ExpandedSum(DSum(x + t, xs, M - 1, N, ex), DSum(x, xs, M - 1, N, ex), D2Sum(x, xs, M - 1, N, ex), D2Rem(x, t, xs, M - 1, N, ex),
          Prod(x + t, xs, N, ex + {M - 1}), Prod(x, xs, N, ex + {M - 1}), DSum(x, xs, N, N, ex + {M - 1}), PRem(x, t, xs, N, ex + {M - 1}), t);
      }
    }
  }

  /** An expansion multiplied through by a constant c. */
  lemma ScaledExpansion(c: real, L: real, P: real, D: real, R: real, L': real, P': real, D': real, R': real, t: real)
    requires Expanded(L, P, D, R, t)
    requires IsProduct(L', c, L) && IsProduct(P', c, P) && IsProduct(D', c, D) && IsProduct(R', c, R)
    ensures Expanded(L', P', D', R', t)
  {
  }

  // ---------------------------------------------------------------------------
  // Second derivatives as elementary symmetric sums.

  /** A node index at or beyond N is not seen by the products of a DSum. */
  lemma {:induction false} DSumIgnores(x: real, xs: seq<real>, M: nat, N: nat, ex: set<nat>, m: nat)
    requires M <= N <= |xs| && N <= m
    ensures DSum(x, xs, M, N, ex + {m}) == DSum(x, xs, M, N, ex)
  {
    if M > 0 {
      DSumIgnores(x, xs, M - 1, N, ex, m);
      assert M - 1 in ex + {m} <==> M - 1 in ex;
      assert ex + {m} + {M - 1} == (ex + {M - 1}) + {m};
      ProdIgnores(x, xs, N, ex + {M - 1}, m);
    }
  }

  /** Taking one more node into every derivative sum of a D2Sum. */
  lemma {:induction false} D2SumShift(x: real, xs: seq<real>, M: nat, n: nat, ex: set<nat>)
    requires 1 <= n <= |xs| && M <= n - 1
    ensures D2Sum(x, xs, M, n, ex)
         == if n - 1 in ex then D2Sum(x, xs, M, n - 1, ex)
            else D2Sum(x, xs, M, n - 1, ex) * (x - xs[n - 1]) + DSum(x, xs, M, n - 1, ex)
  {
    if M > 0 {
      D2SumShift(x, xs, M - 1, n, ex);
      if M - 1 !in ex {
        assert n - 1 in ex + {M - 1} <==> n - 1 in ex;
        if n - 1 in ex {
          DSumDiag(x, xs, n, ex + {M - 1});
        } else {
          D2SumShiftStep(x, xs, M, n, ex);
        }
      }
    }
  }

  /** The inductive step of D2SumShift when neither M - 1 nor n - 1 is excluded. */
  lemma D2SumShiftStep(x: real, xs: seq<real>, M: nat, n: nat, ex: set<nat>)
    requires 1 <= n <= |xs| && 1 <= M <= n - 1 && M - 1 !in ex && n - 1 !in ex
    requires D2Sum(x, xs, M - 1, n, ex) == D2Sum(x, xs, M - 1, n - 1, ex) * (x - xs[n - 1]) + DSum(x, xs, M - 1, n - 1, ex)
    ensures D2Sum(x, xs, M, n, ex) == D2Sum(x, xs, M, n - 1, ex) * (x - xs[n - 1]) + DSum(x, xs, M, n - 1, ex)
  {
    var ex' := ex + {M - 1};
    assert n - 1 !in ex';
    DSumDiag(x, xs, n, ex');
    ShiftSum(D2Sum(x, xs, M - 1, n, ex), D2Sum(x, xs, M - 1, n - 1, ex), DSum(x, xs, M - 1, n - 1, ex),
             DSum(x, xs, n, n, ex'), DSum(x, xs, n - 1, n - 1, ex'), Prod(x, xs, n - 1, ex'), x - xs[n - 1]);
  }

  /** Two sums of the form S0 a + P add up to one. */
  lemma ShiftSum(A: real, A0: real, B0: real, C: real, C0: real, P: real, a: real)
    requires A == A0 * a + B0 && C == C0 * a + P
    ensures A + C == (A0 + C0) * a + (B0 + P)
  {
  }

  /** The product rule once more: the recurrence for the second derivative sum. */
  lemma D2SumDiag(x: real, xs: seq<real>, n: nat, ex: set<nat>)
    requires 1 <= n <= |xs|
    ensures D2Sum(x, xs, n, n, ex)
         == if n - 1 in ex then D2Sum(x, xs, n - 1, n - 1, ex)
            else D2Sum(x, xs, n - 1, n - 1, ex) * (x - xs[n - 1]) + 2.0 * DSum(x, xs, n - 1, n - 1, ex)
  {
    D2SumShift(x, xs, n - 1, n, ex);
    if n - 1 !in ex {
      assert n - 1 in ex + {n - 1};
      DSumDiag(x, xs, n, ex + {n - 1});
      DSumIgnores(x, xs, n - 1, n - 1, ex, n - 1);
    }
  }

  /** The number of factors in basis function k's product over the first n nodes. */
  function Count(n: nat, k: nat): nat
  {
    if k < n then n - 1 else n
  }

  /**
   * The j-th elementary symmetric sum of the factors (x - x_i), i < n,
   * i != k: the sum over all j-element choices of factors of their product.
   */
  function Elementary(x: real, xs: seq<real>, j: int, n: nat, k: nat): real
    requires n <= |xs|
  {
    if j < 0 then 0.0
    else if j == 0 then 1.0
    else if n == 0 then 0.0
    else if n - 1 == k then Elementary(x, xs, j, n - 1, k)
    else Elementary(x, xs, j, n - 1, k) + Elementary(x, xs, j - 1, n - 1, k) * (x - xs[n - 1])
  }

  /** There is no choice of more factors than there are. */
  lemma {:induction false} ElementaryBeyond(x: real, xs: seq<real>, j: int, n: nat, k: nat)
    requires n <= |xs| && j > Count(n, k)
    ensures Elementary(x, xs, j, n, k) == 0.0
  {
    if n > 0 {
      ElementaryBeyond(x, xs, j, n - 1, k);
      if n - 1 != k {
        ElementaryBeyond(x, xs, j - 1, n - 1, k);
      }
    }
  }

  /** The whole product is the top elementary sum. */
  lemma {:induction false} ProdIsElementary(x: real, xs: seq<real>, n: nat, k: nat)
    requires n <= |xs|
    ensures Prod(x, xs, n, {k}) == Elementary(x, xs, Count(n, k), n, k)
  {
    if n > 0 {
      ProdIsElementary(x, xs, n - 1, k);
      if n - 1 != k {
        ProdIsElementaryStep(x, xs, n, k);
      }
    }
  }

  lemma ProdIsElementaryStep(x: real, xs: seq<real>, n: nat, k: nat)
    requires 1 <= n <= |xs| && n - 1 != k
    requires Prod(x, xs, n - 1, {k}) == Elementary(x, xs, Count(n - 1, k), n - 1, k)
    ensures Prod(x, xs, n, {k}) == Elementary(x, xs, Count(n, k), n, k)
  {
    var c: int := Count(n - 1, k);
    assert n - 1 !in {k};
    ElementaryBeyond(x, xs, c + 1, n - 1, k);
    ElementaryStep(x, xs, c + 1, n, k);
    TopStep(Prod(x, xs, n, {k}), Prod(x, xs, n - 1, {k}), x - xs[n - 1],
      Elementary(x, xs, c + 1, n, k), Elementary(x, xs, c + 1, n - 1, k), Elementary(x, xs, c, n - 1, k));
  }

  lemma TopStep(P: real, P0: real, a: real, E: real, E1: real, E0: real)
    requires P == P0 * a && P0 == E0 && E1 == 0.0 && StepsBy(E, E0, a, 1.0, E1)
    ensures P == E
  {
  }

  /** S = S0 * a + c * P0: one step of a product-rule recurrence, kept as a predicate. */
  predicate StepsBy(S: real, S0: real, a: real, c: real, P0: real)
  {
    S == S0 * a + c * P0
  }

  /** The recurrence of the elementary sums, for every j. */
  lemma ElementaryStep(x: real, xs: seq<real>, j: int, n: nat, k: nat)
    requires 1 <= n <= |xs| && n - 1 != k
    ensures StepsBy(Elementary(x, xs, j, n, k), Elementary(x, xs, j - 1, n - 1, k), x - xs[n - 1], 1.0, Elementary(x, xs, j, n - 1, k))
  {
  }

  lemma DSumStep(x: real, xs: seq<real>, n: nat, k: nat)
    requires 1 <= n <= |xs| && n - 1 != k
    ensures StepsBy(DSum(x, xs, n, n, {k}), DSum(x, xs, n - 1, n - 1, {k}), x - xs[n - 1], 1.0, Prod(x, xs, n - 1, {k}))
  {
    assert n - 1 !in {k};
    DSumDiag(x, xs, n, {k});
  }

  lemma D2SumStep(x: real, xs: seq<real>, n: nat, k: nat)
    requires 1 <= n <= |xs| && n - 1 != k
    ensures StepsBy(D2Sum(x, xs, n, n, {k}), D2Sum(x, xs, n - 1, n - 1, {k}), x - xs[n - 1], 2.0, DSum(x, xs, n - 1, n - 1, {k}))
  {
    assert n - 1 !in {k};
    D2SumDiag(x, xs, n, {k});
  }

  lemma SumStep(S: real, S0: real, P0: real, a: real, c: real, E: real, E1: real, E0: real)
    requires StepsBy(S, S0, a, c, P0) && S0 == c * E0 && P0 == E1 && StepsBy(E, E0, a, 1.0, E1)
    ensures S == c * E
  {
  }

  /** The derivative of the product is the next elementary sum down. */
  lemma {:induction false} DSumIsElementary(x: real, xs: seq<real>, n: nat, k: nat)
    requires n <= |xs|
    ensures DSum(x, xs, n, n, {k}) == Elementary(x, xs, Count(n, k) - 1, n, k)
  {
    if n > 0 {
      DSumIsElementary(x, xs, n - 1, k);
      if n - 1 == k {
        DSumDiag(x, xs, n, {k});
      } else {
        DSumIsElementaryStep(x, xs, n, k);
      }
    }
  }

  lemma DSumIsElementaryStep(x: real, xs: seq<real>, n: nat, k: nat)
    requires 1 <= n <= |xs| && n - 1 != k
    requires DSum(x, xs, n - 1, n - 1, {k}) == Elementary(x, xs, Count(n - 1, k) - 1, n - 1, k)
    ensures DSum(x, xs, n, n, {k}) == Elementary(x, xs, Count(n, k) - 1, n, k)
  {
    var c: int := Count(n - 1, k);
    ProdIsElementary(x, xs, n - 1, k);
    DSumStep(x, xs, n, k);
    ElementaryStep(x, xs, c, n, k);
    SumStep(DSum(x, xs, n, n, {k}), DSum(x, xs, n - 1, n - 1, {k}), Prod(x, xs, n - 1, {k}), x - xs[n - 1], 1.0,
      Elementary(x, xs, c, n, k), Elementary(x, xs, c, n - 1, k), Elementary(x, xs, c - 1, n - 1, k));
  }

  /** The second derivative is twice the elementary sum two down. */
  lemma {:induction false} D2SumIsElementary(x: real, xs: seq<real>, n: nat, k: nat)
    requires n <= |xs|
    ensures D2Sum(x, xs, n, n, {k}) == 2.0 * Elementary(x, xs, Count(n, k) - 2, n, k)
  {
    if n > 0 {
      D2SumIsElementary(x, xs, n - 1, k);
      if n - 1 == k {
        D2SumDiag(x, xs, n, {k});
      } else {
        D2SumIsElementaryStep(x, xs, n, k);
      }
    }
  }

  lemma D2SumIsElementaryStep(x: real, xs: seq<real>, n: nat, k: nat)
    requires 1 <= n <= |xs| && n - 1 != k
    requires D2Sum(x, xs, n - 1, n - 1, {k}) == 2.0 * Elementary(x, xs, Count(n - 1, k) - 2, n - 1, k)
    ensures D2Sum(x, xs, n, n, {k}) == 2.0 * Elementary(x, xs, Count(n, k) - 2, n, k)
  {
    var c: int := Count(n - 1, k);
    DSumIsElementary(x, xs, n - 1, k);
    D2SumStep(x, xs, n, k);
    ElementaryStep(x, xs, c - 1, n, k);
    SumStep(D2Sum(x, xs, n, n, {k}), D2Sum(x, xs, n - 1, n - 1, {k}), DSum(x, xs, n - 1, n - 1, {k}), x - xs[n - 1], 2.0,
      Elementary(x, xs, c - 1, n, k), Elementary(x, xs, c - 1, n - 1, k), Elementary(x, xs, c - 2, n - 1, k));
  }

  /** The degree-3 sum is twice the first elementary sum. */
  lemma {:induction false} LinSumIsElementary(x: real, xs: seq<real>, M: nat, k: nat)
    requires M <= |xs|
    ensures LinSum(x, xs, M, k) == 2.0 * Elementary(x, xs, 1, M, k)
  {
    if M > 0 {
      LinSumIsElementary(x, xs, M - 1, k);
    }
  }

  /** The degree-4 sum over pairs is twice the second elementary sum. */
  lemma {:induction false} PairSumIsElementary(x: real, xs: seq<real>, M: nat, k: nat)
    requires M <= |xs|
    ensures PairSum(x, xs, M, k) == 2.0 * Elementary(x, xs, 2, M, k)
  {
    if M > 0 {
      PairSumIsElementary(x, xs, M - 1, k);
      LinSumIsElementary(x, xs, M - 1, k);
    }
  }

  // ---------------------------------------------------------------------------
  // The basis functions and their derivatives.

  /** Basis function k at x: 1 at node k, 0 at every other node. */
  function Value(x: real, xs: seq<real>, k: nat): real
    requires DistinctNodes(xs) && k < |xs|
  {
    Basis(x, xs, |xs|, k)
  }

  /** The first derivative of basis function k at x. */
  function Derivative(x: real, xs: seq<real>, k: nat): real
    requires DistinctNodes(xs) && k < |xs|
  {
    InvProd(xs, |xs|, k) * DSum(x, xs, |xs|, |xs|, {k})
  }

  /** The second derivative of basis function k at x. */
  function SecondDerivative(x: real, xs: seq<real>, k: nat): real
    requires DistinctNodes(xs) && k < |xs|
  {
    InvProd(xs, |xs|, k) * D2Sum(x, xs, |xs|, |xs|, {k})
  }

  /** The second-order remainder of Value for a step t. */
  function ValueRemainder(x: real, t: real, xs: seq<real>, k: nat): real
    requires DistinctNodes(xs) && k < |xs|
  {
    InvProd(xs, |xs|, k) * PRem(x, t, xs, |xs|, {k})
  }

  /** The second-order remainder of Derivative for a step t. */
  function DerivativeRemainder(x: real, t: real, xs: seq<real>, k: nat): real
    requires DistinctNodes(xs) && k < |xs|
  {
    InvProd(xs, |xs|, k) * D2Rem(x, t, xs, |xs|, |xs|, {k})
  }

  /** The Kronecker property: basis function k is 1 at node k and 0 at every other node. */
  lemma ValueAtNodes(xs: seq<real>, j: nat, k: nat)
    requires DistinctNodes(xs) && j < |xs| && k < |xs|
    ensures Value(xs[j], xs, k) == if j == k then 1.0 else 0.0
  {
    if j == k {
      BasisAtOwnNode(xs, |xs|, k);
    } else {
      BasisAtOtherNode(xs, |xs|, k, j);
    }
  }

  /** Value(x + t) = Value(x) + t Derivative(x) + t^2 R: Derivative is the derivative of Value. */
  lemma ValueExpansion(x: real, t: real, xs: seq<real>, k: nat)
    requires DistinctNodes(xs) && k < |xs|
    ensures Expanded(Value(x + t, xs, k), Value(x, xs, k), Derivative(x, xs, k), ValueRemainder(x, t, xs, k), t)
  {
    var n := |xs|;
    BasisFactors(x + t, xs, n, k);
    BasisFactors(x, xs, n, k);
    ProductRule(x, t, xs, n, {k});
    ScaledExpansion(InvProd(xs, n, k), Prod(x + t, xs, n, {k}), Prod(x, xs, n, {k}), DSum(x, xs, n, n, {k}), PRem(x, t, xs, n, {k}),
      Value(x + t, xs, k), Value(x, xs, k), Derivative(x, xs, k), ValueRemainder(x, t, xs, k), t);
  }

  /** Derivative(x + t) = Derivative(x) + t SecondDerivative(x) + t^2 R. */
  lemma DerivativeExpansion(x: real, t: real, xs: seq<real>, k: nat)
    requires DistinctNodes(xs) && k < |xs|
    ensures Expanded(Derivative(x + t, xs, k), Derivative(x, xs, k), SecondDerivative(x, xs, k), DerivativeRemainder(x, t, xs, k), t)
  {
    var n := |xs|;
    SumRule(x, t, xs, n, n, {k});
    ScaledExpansion(InvProd(xs, n, k), DSum(x + t, xs, n, n, {k}), DSum(x, xs, n, n, {k}), D2Sum(x, xs, n, n, {k}), D2Rem(x, t, xs, n, n, {k}),
      Derivative(x + t, xs, k), Derivative(x, xs, k), SecondDerivative(x, xs, k), DerivativeRemainder(x, t, xs, k), t);
  }

  /**
   * The second derivative sums for two, three, four and five nodes (degrees
   * 1 to 4): zero, two, LinSum and PairSum.
   */
  lemma D2SumClosedForms(x: real, xs: seq<real>, k: nat)
    requires k < |xs|
    ensures |xs| == 2 ==> D2Sum(x, xs, 2, 2, {k}) == 0.0
    ensures |xs| == 3 ==> D2Sum(x, xs, 3, 3, {k}) == 2.0
    ensures |xs| == 4 ==> D2Sum(x, xs, 4, 4, {k}) == LinSum(x, xs, 4, k)
    ensures |xs| == 5 ==> D2Sum(x, xs, 5, 5, {k}) == PairSum(x, xs, 5, k)
  {
    var n := |xs|;
    D2SumIsElementary(x, xs, n, k);
    assert Count(n, k) == n - 1;
    if n == 4 {
      LinSumIsElementary(x, xs, n, k);
    } else if n == 5 {
      PairSumIsElementary(x, xs, n, k);
    }
  }

  // ---------------------------------------------------------------------------
  // The loops of the source, over a sequence of distinct nodes.

  /** The value of basis function k at pt: one pass of the outer loop of `eval_basis_1d`. */
  method BasisValue(xs: seq<real>, pt: real, k: nat) returns (bk: real)
    requires DistinctNodes(xs) && k < |xs|
    ensures bk == Value(pt, xs, k)
  {
    bk := 1.0;
    for j := 0 to |xs|
      invariant bk == Basis(pt, xs, j, k)
    {
      if j != k {
        bk := bk * ((pt - xs[j]) / Gap(xs, k, j));
      }
    }
  }

  /** The value of every basis function at pt (`eval_basis_1d`). */
  method Values(xs: seq<real>, pt: real) returns (ret: seq<real>)
    requires DistinctNodes(xs)
    ensures |ret| == |xs|
    ensures forall k :: 0 <= k < |xs| ==> ret[k] == Value(pt, xs, k)
  {
    var a := new real[|xs|](_ => 0.0);
    for k := 0 to |xs|
      invariant forall i :: 0 <= i < k ==> a[i] == Value(pt, xs, i)
    {
      a[k] := BasisValue(xs, pt, k);
    }
    ret := a[..];
  }

  /** The derivative of basis function k at pt: one pass of the outer loop of `eval_gradients_1d`. */
  method BasisDerivative(xs: seq<real>, pt: real, k: nat) returns (d: real)
    requires DistinctNodes(xs) && k < |xs|
    ensures d == Derivative(pt, xs, k)
  {
    var n := |xs|;
    var bkDer := 1.0;
    var sumx := 0.0;
    for tmpx := 0 to n
      invariant bkDer == InvProd(xs, tmpx, k)
      invariant sumx == DSum(pt, xs, tmpx, n, {k})
    {
      if tmpx != k {
        bkDer := bkDer * (1.0 / Gap(xs, k, tmpx));
        var sumxx := ProductBut(xs, pt, k, tmpx);
        sumx := sumx + sumxx;
      }
    }
    d := bkDer * sumx;
  }

  /** The inner loop of `eval_gradients_1d`: the product of pt - x_j over the nodes j other than k and m. */
  method ProductBut(xs: seq<real>, pt: real, k: nat, m: nat) returns (sumxx: real)
    ensures sumxx == Prod(pt, xs, |xs|, {k} + {m})
  {
    sumxx := 1.0;
    for jx := 0 to |xs|
      invariant sumxx == Prod(pt, xs, jx, {k} + {m})
    {
      if jx != m && jx != k {
        sumxx := sumxx * (pt - xs[jx]);
      }
    }
  }

  /** The first derivative of every basis function at pt (`eval_gradients_1d`). */
  method Derivatives(xs: seq<real>, pt: real) returns (ret: seq<real>)
    requires DistinctNodes(xs)
    ensures |ret| == |xs|
    ensures forall k :: 0 <= k < |xs| ==> ret[k] == Derivative(pt, xs, k)
  {
    var a := new real[|xs|](_ => 0.0);
    for k := 0 to |xs|
      invariant forall i :: 0 <= i < k ==> a[i] == Derivative(pt, xs, i)
    {
      a[k] := BasisDerivative(xs, pt, k);
    }
    ret := a[..];
  }

  /** The constant factor prod_(j != k) 1 / (x_k - x_j) of basis function k, by the loop the source repeats. */
  method ConstantFactor(xs: seq<real>, k: nat) returns (bkDer: real)
    requires DistinctNodes(xs) && k < |xs|
    ensures bkDer == InvProd(xs, |xs|, k)
  {
    bkDer := 1.0;
    for tmpx := 0 to |xs|
      invariant bkDer == InvProd(xs, tmpx, k)
    {
      if tmpx != k {
        bkDer := bkDer * (1.0 / Gap(xs, k, tmpx));
      }
    }
  }

  /** The second derivative of basis function k for degree 2: twice its constant factor. */
  method QuadraticSecondDerivative(xs: seq<real>, pt: real, k: nat) returns (d: real)
    requires DistinctNodes(xs) && |xs| == 3 && k < |xs|
    ensures d == SecondDerivative(pt, xs, k)
  {
    var bkDer := ConstantFactor(xs, k);
    d := bkDer * 2.0;
    D2SumClosedForms(pt, xs, k);
  }

  /**
   * The inner search of the degree-3 case: multiply b0 by the factor of the
   * first node from `start` on that is not node k. Since `start` is not k,
   * that is the factor of node `start`.
   */
  method FirstFactor(xs: seq<real>, pt: real, k: nat, start: nat, b0: real) returns (b: real)
    requires start < |xs| && start != k
    ensures b == b0 * (pt - xs[start])
  {
    b := b0;
    var jx := start;
    var inserted := false;
    while !inserted
      invariant jx == if inserted then start + 1 else start
      invariant b == if inserted then b0 * (pt - xs[start]) else b0
      decreases if inserted then 0 else 1
    {
      if jx != k {
        b := b * (pt - xs[jx]);
        inserted := true;
      }
      jx := jx + 1;
    }
  }

  /** The second derivative of basis function k for degree 3: one pass of the outer loop. */
  method CubicSecondDerivative(xs: seq<real>, pt: real, k: nat) returns (d: real)
    requires DistinctNodes(xs) && |xs| == 4 && k < |xs|
    ensures d == SecondDerivative(pt, xs, k)
  {
    var n := |xs|;
    var bkDer := 1.0;
    var bTot := 0.0;
    for tmpx := 0 to n
      invariant bkDer == InvProd(xs, tmpx, k)
      invariant bTot == LinSum(pt, xs, tmpx, k)
    {
      var b := 1.0;
      if tmpx != k {
        bkDer := bkDer * (1.0 / Gap(xs, k, tmpx));
        b := FirstFactor(xs, pt, k, tmpx, b);
        bTot := bTot + 2.0 * b;
      }
    }
    d := bkDer * bTot;
    D2SumClosedForms(pt, xs, k);
  }

  /** An index the partner search of the degree-4 case steps over: node k or the current node. */
  predicate Skipped(i: nat, k: nat, pos: nat)
  {
    i == k || i == pos
  }

  /**
   * The partner search of the degree-4 case: from jx0 on, step over node k
   * and node pos and multiply b0 by the factor of the first other node,
   * which is `target`; jx ends just past it.
   */
  method NextPartner(xs: seq<real>, pt: real, k: nat, pos: nat, jx0: nat, b0: real, ghost target: nat)
    returns (b: real, jx: nat)
    requires jx0 <= target < |xs| && !Skipped(target, k, pos)
    requires forall i :: jx0 <= i < target ==> Skipped(i, k, pos)
    ensures b == b0 * (pt - xs[target]) && jx == target + 1
  {
    b := b0;
    jx := jx0;
    var m := 0;
    // basis_degree - 3 is 1 for degree 4
    while m != 1
      invariant m == 0 ==> jx0 <= jx <= target && b == b0
      invariant m == 1 ==> jx == target + 1 && b == b0 * (pt - xs[target])
      invariant 0 <= m <= 1
      decreases 1 - m, target - jx
    {
      if jx < target {
        assert Skipped(jx, k, pos);
      }
      if jx != k && jx != pos {
        b := b * (pt - xs[jx]);
        m := m + 1;
      }
      jx := jx + 1;
    }
  }

  /**
   * One pass of the `amount` loop of the degree-4 case: with pos the a-th
   * node other than k, add the terms for pos and each later node other
   * than k to bTot0.
   */
  method PairRow(xs: seq<real>, pt: real, k: nat, amount: nat, pos: nat, bTot0: real) returns (bTot: real)
    requires |xs| == 5 && k < |xs| && amount < 3 && pos == Other(k, amount)
    ensures bTot == bTot0 + RowSum(pt, xs, k, amount, 3 - amount)
  {
    var degree := |xs| - 1;
    bTot := bTot0;
    var jx := pos;
    var num := degree - 1 - amount;
    while num > 0
      invariant 0 <= num <= degree - 1 - amount
      invariant num == degree - 1 - amount ==> jx == pos
      invariant num < degree - 1 - amount ==> jx == Other(k, degree - 1 - num) + 1
      invariant bTot == bTot0 + RowSum(pt, xs, k, amount, degree - 1 - amount - num)
    {
      var b := pt - xs[pos];
      ghost var c := degree - amount - num;
      b, jx := NextPartner(xs, pt, k, pos, jx, b, Other(k, amount + c));
      bTot := bTot + 2.0 * b;
      num := num - 1;
    }
  }

  /**
   * The sum over pairs of nodes other than k that the degree-4 case forms:
   * for the a-th such node `pos`, each of the later ones `jx` in turn.
   */
  method PairEnumeration(xs: seq<real>, pt: real, k: nat) returns (bTot: real)
    requires |xs| == 5 && k < |xs|
    ensures bTot == RowsSum(pt, xs, k, 3)
  {
    var degree := |xs| - 1;
    bTot := 0.0;
    var pos := 0;
    for amount := 0 to degree - 1
      invariant pos == if amount <= k then amount else amount + 1
      invariant bTot == RowsSum(pt, xs, k, amount)
    {
      if pos == k {
        pos := pos + 1;
      }
      bTot := PairRow(xs, pt, k, amount, pos, bTot);
      pos := pos + 1;
    }
  }

  /** The sum of the six pairwise products of p, q, r and s, each doubled. */
  function SixPairs(p: real, q: real, r: real, s: real): real
  {
    2.0 * (p * q) + 2.0 * (p * r) + 2.0 * (p * s) + 2.0 * (q * r) + 2.0 * (q * s) + 2.0 * (r * s)
  }

  /** The six pairs of four factors p, q, r, s, summed the way PairSum sums them. */
  lemma FourPairs(p: real, q: real, r: real, s: real, L1: real, L2: real, L3: real, P2: real, P3: real, P4: real)
    requires L1 == 2.0 * p && L2 == L1 + 2.0 * q && L3 == L2 + 2.0 * r
    requires IsProduct(P2, L1, q) && IsProduct(P3 - P2, L2, r) && IsProduct(P4 - P3, L3, s)
    ensures P4 == SixPairs(p, q, r, s)
  {
  }

  /** One node other than k adds its products with all earlier ones to PairSum. */
  lemma PairSumStep(x: real, xs: seq<real>, M: nat, k: nat)
    requires M < |xs| && M != k
    ensures IsProduct(PairSum(x, xs, M + 1, k) - PairSum(x, xs, M, k), LinSum(x, xs, M, k), x - xs[M])
  {
  }

  /** Among the first M nodes at most one is other than k, so there is no pair. */
  lemma PairSumOfOne(x: real, xs: seq<real>, M: nat, k: nat)
    requires M <= |xs| && (M <= 1 || (M == 2 && k < 2))
    ensures PairSum(x, xs, M, k) == 0.0
  {
    assert LinSum(x, xs, 0, k) == 0.0;
    if M == 2 {
      assert PairSum(x, xs, 1, k) == 0.0;
    }
  }

  /** The factor x - x_j of the r-th node j other than k. */
  function OtherFactor(x: real, xs: seq<real>, k: nat, r: nat): real
    requires Other(k, r) < |xs|
  {
    x - xs[Other(k, r)]
  }

  /** The rows of the enumeration for five nodes hold the six pairs of nodes other than k. */
  lemma RowsExpanded(x: real, xs: seq<real>, k: nat)
    requires |xs| == 5 && k < |xs|
    ensures RowsSum(x, xs, k, 3) ==
      SixPairs(OtherFactor(x, xs, k, 0), OtherFactor(x, xs, k, 1), OtherFactor(x, xs, k, 2), OtherFactor(x, xs, k, 3))
  {
    var dp, dq, dr, ds := OtherFactor(x, xs, k, 0), OtherFactor(x, xs, k, 1), OtherFactor(x, xs, k, 2), OtherFactor(x, xs, k, 3);
    assert RowSum(x, xs, k, 0, 1) == 2.0 * (dp * dq);
    assert RowSum(x, xs, k, 0, 2) == 2.0 * (dp * dq) + 2.0 * (dp * dr);
    assert RowSum(x, xs, k, 1, 1) == 2.0 * (dq * dr);
    assert RowSum(x, xs, k, 0, 3) == 2.0 * (dp * dq) + 2.0 * (dp * dr) + 2.0 * (dp * ds);
    assert RowSum(x, xs, k, 1, 2) == 2.0 * (dq * dr) + 2.0 * (dq * ds);
    assert RowSum(x, xs, k, 2, 1) == 2.0 * (dr * ds);
    assert RowsSum(x, xs, k, 1) == RowSum(x, xs, k, 0, 3);
    assert RowsSum(x, xs, k, 3) == RowSum(x, xs, k, 0, 3) + RowSum(x, xs, k, 1, 2) + RowSum(x, xs, k, 2, 1);
  }

  /** PairSum over five nodes holds the six pairs of nodes other than k. */
  lemma PairsExpanded(x: real, xs: seq<real>, k: nat)
    requires |xs| == 5 && k < |xs|
    ensures PairSum(x, xs, 5, k) ==
      SixPairs(OtherFactor(x, xs, k, 0), OtherFactor(x, xs, k, 1), OtherFactor(x, xs, k, 2), OtherFactor(x, xs, k, 3))
  {
    var p, q, r, s := Other(k, 0), Other(k, 1), Other(k, 2), Other(k, 3);
    var dp, dq, dr, ds := OtherFactor(x, xs, k, 0), OtherFactor(x, xs, k, 1), OtherFactor(x, xs, k, 2), OtherFactor(x, xs, k, 3);
    PairSumOfOne(x, xs, q, k);
    assert LinSum(x, xs, p, k) == 0.0 by {
      assert LinSum(x, xs, 0, k) == 0.0;
    }
    assert LinSum(x, xs, p + 1, k) == 2.0 * dp;
    assert LinSum(x, xs, q, k) == 2.0 * dp;
    assert LinSum(x, xs, r, k) == LinSum(x, xs, q, k) + 2.0 * dq;
    assert LinSum(x, xs, s, k) == LinSum(x, xs, r, k) + 2.0 * dr;
    PairSumStep(x, xs, q, k);
    PairSumStep(x, xs, r, k);
    PairSumStep(x, xs, s, k);
    assert PairSum(x, xs, r, k) == PairSum(x, xs, q + 1, k);
    assert PairSum(x, xs, s, k) == PairSum(x, xs, r + 1, k);
    assert PairSum(x, xs, 5, k) == PairSum(x, xs, s + 1, k);
    FourPairs(dp, dq, dr, ds, LinSum(x, xs, q, k), LinSum(x, xs, r, k), LinSum(x, xs, s, k),
              PairSum(x, xs, q + 1, k), PairSum(x, xs, r + 1, k), PairSum(x, xs, s + 1, k));
  }

  /** The pairs the enumeration visits are all pairs of nodes other than k. */
  lemma RowsArePairs(x: real, xs: seq<real>, k: nat)
    requires |xs| == 5 && k < |xs|
    ensures RowsSum(x, xs, k, 3) == PairSum(x, xs, 5, k)
  {
    RowsExpanded(x, xs, k);
    PairsExpanded(x, xs, k);
  }

  /** The second derivative of basis function k for degree 4: one pass of the outer loop. */
  method QuarticSecondDerivative(xs: seq<real>, pt: real, k: nat) returns (d: real)
    requires DistinctNodes(xs) && |xs| == 5 && k < |xs|
    ensures d == SecondDerivative(pt, xs, k)
  {
    var bTot := PairEnumeration(xs, pt, k);
    RowsArePairs(pt, xs, k);
    var bkDer := ConstantFactor(xs, k);
    d := bkDer * bTot;
    D2SumClosedForms(pt, xs, k);
  }

  /**
   * The second derivative of every basis function (`eval_double_derivative_1d`)
   * for 3, 4 or 5 nodes (degrees 2 to 4), one basis function at a time.
   */
  method SecondDerivatives(xs: seq<real>, pt: real) returns (ret: seq<real>)
    requires DistinctNodes(xs) && 3 <= |xs| <= 5
    ensures |ret| == |xs|
    ensures forall k :: 0 <= k < |xs| ==> ret[k] == SecondDerivative(pt, xs, k)
  {
    var a := new real[|xs|](_ => 0.0);
    for k := 0 to |xs|
      invariant forall i :: 0 <= i < k ==> a[i] == SecondDerivative(pt, xs, i)
    {
      if |xs| == 3 {
        a[k] := QuadraticSecondDerivative(xs, pt, k);
      } else if |xs| == 4 {
        a[k] := CubicSecondDerivative(xs, pt, k);
      } else {
        a[k] := QuarticSecondDerivative(xs, pt, k);
      }
    }
    ret := a[..];
  }

  /** The interval nodes are distinct, so every basis function is defined. */
  lemma IntervalNodesAreDistinct(degree: nat)
    ensures DistinctNodes(IntervalNodes(degree))
  {
    var xs := IntervalNodes(degree);
    IntervalNodesDistinct(degree);
    forall i, j | 0 <= i < |xs| && 0 <= j < |xs| && i != j
      ensures Gap(xs, i, j) != 0.0
    {
      if i < j {
        assert xs[i] != xs[j];
      } else {
        assert xs[j] != xs[i];
      }
    }
  }

  // ---------------------------------------------------------------------------
  // The basis object.

  /** `cell_basis_Lagrange_1d_reference_new`: the Lagrange basis of a degree on the nodes of [0, 1]. */
  class IntervalBasis {
    const degree: nat
    const size: nat := degree + 1
    const refNodes: seq<real> := IntervalNodes(degree)

    constructor(degree: nat)
      ensures this.degree == degree
      ensures size == degree + 1 && |refNodes| == size
      ensures refNodes == IntervalNodes(degree)
    {
      this.degree := degree;
    }

    /** `eval_basis_1d`: the value of every basis function at pt. */
    method EvalBasis(pt: real) returns (ret: seq<real>)
      ensures DistinctNodes(refNodes)
      ensures |ret| == size
      ensures forall k :: 0 <= k < size ==> ret[k] == Value(pt, refNodes, k)
    {
      IntervalNodesAreDistinct(degree);
      ret := Values(refNodes, pt);
    }

    /** `eval_gradients_1d`: the derivative of every basis function at pt. */
    method EvalGradients(pt: real) returns (ret: seq<real>)
      ensures DistinctNodes(refNodes)
      ensures |ret| == size
      ensures forall k :: 0 <= k < size ==> ret[k] == Derivative(pt, refNodes, k)
    {
      IntervalNodesAreDistinct(degree);
      ret := Derivatives(refNodes, pt);
    }

    /**
     * `eval_double_derivative_1d`: the second derivative of every basis
     * function for degrees 1 to 4, an error for degree 0 (where the source
     * exits), and zeros beyond degree 4 (where the source prints an error
     * message and returns zeros).
     */
    method EvalDoubleDerivative(pt: real) returns (r: Result<seq<real>>)
      ensures DistinctNodes(refNodes)
      ensures r.Err? <==> degree == 0
      ensures r.Err? ==> r.error == UnsupportedDegree(degree)
      ensures r.Ok? ==> |r.value| == size
      ensures 1 <= degree <= 4 ==> r.Ok? && forall k :: 0 <= k < size ==> r.value[k] == SecondDerivative(pt, refNodes, k)
      ensures degree > 4 ==> r == Ok(seq(size, _ => 0.0))
    {
      IntervalNodesAreDistinct(degree);
      var xs := refNodes;
      if degree == 0 {
        return Err(UnsupportedDegree(degree));
      }
      if degree == 1 {
        forall k | 0 <= k < size
          ensures SecondDerivative(pt, xs, k) == 0.0
        {
          D2SumClosedForms(pt, xs, k);
        }
        return Ok(seq(size, _ => 0.0));
      }
      if degree <= 4 {
        var ret := SecondDerivatives(xs, pt);
        return Ok(ret);
      }
      return Ok(seq(size, _ => 0.0));
    }

    /** At reference node j, basis function k is 1 if k = j and 0 otherwise. */
    lemma KroneckerAtNodes(j: nat, k: nat)
      requires j < size && k < size
      ensures DistinctNodes(refNodes)
      ensures Value(refNodes[j], refNodes, k) == if j == k then 1.0 else 0.0
    {
      IntervalNodesAreDistinct(degree);
      ValueAtNodes(refNodes, j, k);
    }

    /** What `eval_gradients_1d` returns is the derivative of what `eval_basis_1d` returns. */
    lemma GradientsAreDerivatives(pt: real, t: real, k: nat)
      requires k < size
      ensures DistinctNodes(refNodes)
      ensures Expanded(Value(pt + t, refNodes, k), Value(pt, refNodes, k), Derivative(pt, refNodes, k), ValueRemainder(pt, t, refNodes, k), t)
    {
      IntervalNodesAreDistinct(degree);
      ValueExpansion(pt, t, refNodes, k);
    }

    /** What `eval_double_derivative_1d` returns is the derivative of what `eval_gradients_1d` returns. */
    lemma DoubleDerivativesAreDerivatives(pt: real, t: real, k: nat)
      requires k < size
      ensures DistinctNodes(refNodes)
      ensures Expanded(Derivative(pt + t, refNodes, k), Derivative(pt, refNodes, k), SecondDerivative(pt, refNodes, k),
                       DerivativeRemainder(pt, t, refNodes, k), t)
    {
      IntervalNodesAreDistinct(degree);
      DerivativeExpansion(pt, t, refNodes, k);
    }
  }
}
