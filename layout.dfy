/**
 * The enumeration order shared by the scalar cell basis and its liftings:
 * the monomials x^(k-i) y^i are listed by total degree k, and within one
 * degree by increasing power i of y. The monomial (k - i, i) therefore sits
 * at position k(k+1)/2 + i, and the positions 0 .. (n+1)n/2 - 1 are in
 * one-to-one correspondence with the pairs of total degree below n.
 */
module Layout {
  import opened Combinatorics

  /** The n-th triangular number: how many pairs have total degree below n. */
  function Tri(n: nat): nat
  {
    if n == 0 then 0 else Tri(n - 1) + n
  }

  /** The position of the pair (k - i, i) of total degree k. */
  function Idx(k: nat, i: nat): nat
  {
    Tri(k) + i
  }

  lemma {:induction false} TriFormula(n: nat)
    ensures Tri(n) == n * (n + 1) / 2
  {
    TriDouble(n);
    ExactQuotient(n * (n + 1), 2, Tri(n));
  }

  lemma {:induction false} TriDouble(n: nat)
    ensures 2 * Tri(n) == n * (n + 1)
  {
    if n > 0 {
      TriDouble(n - 1);
    }
  }

  /** Tri(n) is the binomial coefficient C(n + 1, 2). */
  lemma TriChoose(n: nat)
    ensures Tri(n) == Choose(n + 1, 2)
  {
    TriFormula(n);
    if n > 0 {
      ChooseTwo(n - 1);
    }
  }

  lemma {:induction false} TriMonotone(a: nat, b: nat)
    requires a <= b
    ensures Tri(a) + (b - a) <= Tri(b)
  {
    if a < b {
      TriMonotone(a, b - 1);
    }
  }

  /** Distinct pairs occupy distinct positions. */
  lemma IdxInjective(k1: nat, i1: nat, k2: nat, i2: nat)
    requires i1 <= k1 && i2 <= k2 && Idx(k1, i1) == Idx(k2, i2)
    ensures k1 == k2 && i1 == i2
  {
    if k1 < k2 {
      TriMonotone(k1 + 1, k2);
    } else if k2 < k1 {
      TriMonotone(k2 + 1, k1);
    }
  }

  /** The total degree of the pair at position j: Tri(k) <= j < Tri(k + 1). */
  function DegreeAt(j: nat): (k: nat)
    ensures Tri(k) <= j < Tri(k + 1)
  {
    if j == 0 then 0
    else
      var d := DegreeAt(j - 1);
      if j == Tri(d + 1) then d + 1 else d
  }

  /** The inverse of Idx: the (k, i) with Idx(k, i) == j. */
  function Unrank(j: nat): (ki: (nat, nat))
    ensures ki.1 <= ki.0 && Idx(ki.0, ki.1) == j
  {
    var k := DegreeAt(j);
    (k, j - Tri(k))
  }

  /** Unrank undoes Idx, so positions and pairs are in bijection. */
  lemma UnrankIdx(k: nat, i: nat)
    requires i <= k
    ensures Unrank(Idx(k, i)) == (k, i)
  {
    var ki := Unrank(Idx(k, i));
    IdxInjective(ki.0, ki.1, k, i);
  }

  /** Positions below Tri(n) hold exactly the pairs of total degree below n. */
  lemma IdxBelow(k: nat, i: nat, n: nat)
    requires i <= k
    ensures Idx(k, i) < Tri(n) <==> k < n
  {
    if k < n {
      TriMonotone(k + 1, n);
    } else {
      TriMonotone(n, k);
    }
  }

  /** Every pair of total degree below n sits at its position in s. */
  ghost predicate Lists<T>(s: seq<T>, f: (nat, nat) -> T, n: nat)
  {
    |s| == Tri(n) &&
    forall k: nat, i: nat :: k < n && i <= k ==> Idx(k, i) < |s| && s[Idx(k, i)] == f(k - i, i)
  }

  /** f applied to every pair of total degree below n, in the basis order. */
  function Enumerate<T>(f: (nat, nat) -> T, n: nat): seq<T>
  {
    seq(Tri(n), j requires 0 <= j => f(Unrank(j).0 - Unrank(j).1, Unrank(j).1))
  }

  /** One entry of Enumerate: the pair (k - i, i) sits at position Idx(k, i). */
  lemma EnumerateAt<T>(f: (nat, nat) -> T, n: nat, k: nat, i: nat)
    requires k < n && i <= k
    ensures Idx(k, i) < |Enumerate(f, n)| && Enumerate(f, n)[Idx(k, i)] == f(k - i, i)
  {
    IdxBelow(k, i, n);
    UnrankIdx(k, i);
  }

  lemma EnumerateLists<T>(f: (nat, nat) -> T, n: nat)
    ensures Lists(Enumerate(f, n), f, n)
  {
    forall k: nat, i: nat | k < n && i <= k
      ensures Idx(k, i) < |Enumerate(f, n)| && Enumerate(f, n)[Idx(k, i)] == f(k - i, i)
    {
      EnumerateAt(f, n, k, i);
    }
  }

  /** The layout determines the sequence: nothing else lists f in this order. */
  lemma ListsUnique<T>(s: seq<T>, t: seq<T>, f: (nat, nat) -> T, n: nat)
    requires Lists(s, f, n) && Lists(t, f, n)
    ensures s == t
  {
    forall j | 0 <= j < |s|
      ensures s[j] == t[j]
    {
      var ki := Unrank(j);
      IdxBelow(ki.0, ki.1, n);
    }
  }

  /** A sequence with the layout of Enumerate(f, n), for use as a loop target. */
  lemma ListsWitness<T>(f: (nat, nat) -> T, n: nat) returns (s: seq<T>)
    ensures Lists(s, f, n)
  {
    s := Enumerate(f, n);
    EnumerateLists(f, n);
  }
}
