/**
 * The reference nodes of the Lagrange bases: nodes on the unit interval
 * [0, 1] (`reference_nodes_ordered_01`) and on the unit triangle with
 * corners (0, 0), (1, 0), (0, 1) (`reference_nodes_triangle`). Both list
 * the end points or corners first.
 */
module ReferenceNodes {
  import opened Common
  import opened CellBases

  /** The interior nodes 1/d, 2/d, ..., n/d, in increasing order. */
  function Interior(d: nat, n: nat): (r: seq<real>)
    requires d > 0
    ensures |r| == n
    ensures forall k :: 0 <= k < n ==> r[k] == ((k + 1) as real) / (d as real)
  {
    if n == 0 then [] else Interior(d, n - 1) + [(n as real) / (d as real)]
  }

  /**
   * The nodes on [0, 1] for a given degree: tabulated up to degree 4, and
   * 0, 1 followed by the equispaced interior points beyond. Degree 0 has the
   * single node 1/2.
   */
  function IntervalNodes(degree: nat): (r: seq<real>)
    ensures |r| == degree + 1
    ensures degree >= 1 ==> r[0] == 0.0 && r[1] == 1.0
  {
    if degree == 0 then [0.5]
    else if degree == 1 then [0.0, 1.0]
    else if degree == 2 then [0.0, 1.0, 0.5]
    else if degree == 3 then [0.0, 1.0, 1.0 / 3.0, 2.0 / 3.0]
    else if degree == 4 then [0.0, 1.0, 0.25, 0.5, 0.75]
    else [0.0, 1.0] + Interior(degree, degree - 1)
  }

  lemma NextFraction(j: real, d: real)
    requires d > 0.0
    ensures j / d + 1.0 / d == (j + 1.0) / d
  {
  }

  lemma FractionBelowOne(j: real, d: real)
    requires d > 0.0
    ensures j / d < 1.0 <==> j < d
  {
    assert (j / d) * d == j;
  }

  /**
   * `reference_nodes_ordered_01`: the tables, or 0 and 1 followed by the
   * running sums delta, 2 delta, ... while they stay below 1, where
   * delta = 1/degree.
   */
  method OrderedNodes01(degree: nat) returns (ret: seq<real>)
    ensures ret == IntervalNodes(degree)
  {
    if degree == 0 {
      ret := [0.5];
    } else if degree == 1 {
      ret := [0.0, 1.0];
    } else if degree == 2 {
      ret := [0.0, 1.0, 0.5];
    } else if degree == 3 {
      ret := [0.0, 1.0, 1.0 / 3.0, 2.0 / 3.0];
    } else if degree == 4 {
      ret := [0.0, 1.0, 0.25, 0.5, 0.75];
    } else {
      var d := degree as real;
      var delta := 1.0 / d;
      var a1 := delta;
      ret := [0.0, 1.0];
      ghost var j: nat := 1;
      FractionBelowOne(1.0, d);
      while a1 < 1.0
        invariant 1 <= j <= degree
        invariant a1 == (j as real) / d
        invariant a1 < 1.0 <==> j < degree
        invariant ret == [0.0, 1.0] + Interior(degree, j - 1)
        decreases degree - j
      {
        ret := ret + [a1];
        NextFraction(j as real, d);
        a1 := a1 + delta;
        j := j + 1;
        FractionBelowOne(j as real, d);
      }
    }
  }

  lemma FractionBounds(a: real, d: real)
    requires 0.0 < a < d
    ensures 0.0 < a / d < 1.0
  {
    FractionBelowOne(a, d);
  }

  lemma FractionsOrdered(a: real, b: real, d: real)
    requires a < b && d > 0.0
    ensures a / d < b / d
  {
    assert (b / d - a / d) * d == b - a;
  }

  /** Every interval node lies in [0, 1]. */
  lemma IntervalNodesInUnitInterval(degree: nat)
    ensures forall i :: 0 <= i < |IntervalNodes(degree)| ==> 0.0 <= IntervalNodes(degree)[i] <= 1.0
  {
    if degree > 4 {
      var r := IntervalNodes(degree);
      forall i | 2 <= i < |r|
        ensures 0.0 < r[i] < 1.0
      {
        FractionBounds((i - 1) as real, degree as real);
      }
    }
  }

  /** The interval nodes are pairwise distinct. */
  lemma IntervalNodesDistinct(degree: nat)
    ensures forall i, j :: 0 <= i < j < |IntervalNodes(degree)| ==> IntervalNodes(degree)[i] != IntervalNodes(degree)[j]
  {
    if degree > 4 {
      var r := IntervalNodes(degree);
      forall i, j | 0 <= i < j < |r|
        ensures r[i] != r[j]
      {
        if i >= 2 {
          FractionsOrdered((i - 1) as real, (j - 1) as real, degree as real);
        } else if j >= 2 {
          FractionBounds((j - 1) as real, degree as real);
        }
      }
    }
  }

  /** The first three triangle nodes are the corners (0, 0), (1, 0), (0, 1). */
  const Corners: seq<Point> := [Point(0.0, 0.0), Point(1.0, 0.0), Point(0.0, 1.0)]

  const Nodes2: seq<Point> := Corners + [Point(0.5, 0.0), Point(0.5, 0.5), Point(0.0, 0.5)]

  const Nodes3: seq<Point> :=
    Corners + [Point(1.0 / 3.0, 0.0), Point(2.0 / 3.0, 0.0), Point(2.0 / 3.0, 1.0 / 3.0),
               Point(1.0 / 3.0, 2.0 / 3.0), Point(0.0, 2.0 / 3.0), Point(0.0, 1.0 / 3.0),
               Point(1.0 / 3.0, 1.0 / 3.0)]

  const Nodes4: seq<Point> :=
    Corners + [Point(1.0 / 4.0, 0.0), Point(0.5, 0.0), Point(3.0 / 4.0, 0.0),
               Point(3.0 / 4.0, 1.0 / 4.0), Point(0.5, 0.5), Point(1.0 / 4.0, 3.0 / 4.0),
               Point(0.0, 3.0 / 4.0), Point(0.0, 0.5), Point(0.0, 1.0 / 4.0),
               Point(1.0 / 4.0, 1.0 / 4.0), Point(0.5, 1.0 / 4.0), Point(1.0 / 4.0, 0.5)]

  /**
   * `reference_nodes_triangle`: the tabulated nodes for degrees 1 to 4 (the
   * corners, then the edge nodes, then the interior ones), and no nodes for
   * any other degree.
   */
  function TriangleNodes(degree: nat): (r: seq<Point>)
    ensures |r| == if 1 <= degree <= 4 then CellSize(degree) else 0
    ensures 1 <= degree <= 4 ==> r[..3] == Corners
  {
    if degree == 1 then Corners
    else if degree == 2 then Nodes2
    else if degree == 3 then Nodes3
    else if degree == 4 then Nodes4
    else []
  }

  predicate InUnitTriangle(p: Point)
  {
    p.x >= 0.0 && p.y >= 0.0 && p.x + p.y <= 1.0
  }

  predicate AllInside(s: seq<Point>)
  {
    forall i :: 0 <= i < |s| ==> InUnitTriangle(s[i])
  }

  predicate Distinct(s: seq<Point>)
  {
    forall i, j :: 0 <= i < j < |s| ==> s[i] != s[j]
  }

  lemma Nodes4Valid()
    ensures AllInside(Nodes4) && Distinct(Nodes4)
  {
  }

  lemma Nodes2Valid()
    ensures AllInside(Corners) && Distinct(Corners)
    ensures AllInside(Nodes2) && Distinct(Nodes2)
  {
  }

  lemma Nodes3Valid()
    ensures AllInside(Nodes3) && Distinct(Nodes3)
  {
  }

  /** The triangle nodes are pairwise distinct points of the closed unit triangle. */
  lemma TriangleNodesValid(degree: nat)
    ensures AllInside(TriangleNodes(degree)) && Distinct(TriangleNodes(degree))
  {
    if degree == 4 {
      Nodes4Valid();
    } else if degree == 3 {
      Nodes3Valid();
    } else {
      Nodes2Valid();
    }
  }
}
