/**
 * The vector, matrix and symmetric-matrix bases built on a scalar basis of
 * size S (`vector_cell_basis`, `vector_face_basis`, `matrix_cell_basis`,
 * `sym_matrix_cell_basis`). Each scalar function phi_k is lifted to several
 * vector or matrix functions that carry phi_k in one slot and zero
 * elsewhere; the lifted functions of phi_k are consecutive.
 */
module Liftings {
  import opened Common
  import opened Layout
  import opened CellBases
  import opened FaceBases

  /** The static sizes, as the source writes them. */
  function VectorCellSize(degree: nat): nat
  {
    2 * (degree + 2) * (degree + 1) / 2
  }

  function VectorFaceSize(degree: nat): nat
  {
    2 * (degree + 1)
  }

  function MatrixCellSize(degree: nat): nat
  {
    2 * 2 * (degree + 2) * (degree + 1) / 2
  }

  function SymMatrixCellSize(degree: nat): nat
  {
    3 * (degree + 2) * (degree + 1) / 2
  }

  /** The lifted sizes are 2S, 2S, 4S and 3S: every division above is exact. */
  lemma LiftedSizes(degree: nat)
    ensures VectorCellSize(degree) == 2 * CellSize(degree)
    ensures VectorFaceSize(degree) == 2 * FaceSize(degree)
    ensures MatrixCellSize(degree) == 4 * CellSize(degree)
    ensures SymMatrixCellSize(degree) == 3 * CellSize(degree)
  {
    CellSizeIsBinomial(degree);
    TriDouble(degree + 1);
    Halves(degree + 2, degree + 1, CellSize(degree));
  }

  lemma Halves(a: nat, b: nat, s: nat)
    requires 2 * s == b * a
    ensures 2 * a * b / 2 == 2 * s
    ensures 2 * 2 * a * b / 2 == 4 * s
    ensures 3 * a * b / 2 == 3 * s
  {
    assert 2 * a * b == 2 * (2 * s);
    assert 2 * 2 * a * b == 2 * (4 * s);
    assert 3 * a * b == 2 * (3 * s);
  }

  /** The two rows a vector basis builds on the scalar value v: (v, 0) and (0, v). */
  function RowPair(v: real): seq<Vec2>
  {
    [Vec2(v, 0.0), Vec2(0.0, v)]
  }

  /** The rows of a vector basis over the scalar values phi, two per value. */
  function VectorRows(phi: seq<real>): seq<Vec2>
    decreases |phi|
  {
    if |phi| == 0 then [] else VectorRows(phi[..|phi| - 1]) + RowPair(phi[|phi| - 1])
  }

  /** Row 2i is (phi_i, 0) and row 2i + 1 is (0, phi_i). */
  lemma {:induction false} VectorRowsLayout(phi: seq<real>)
    ensures |VectorRows(phi)| == 2 * |phi|
    ensures forall i :: 0 <= i < |phi| ==>
      VectorRows(phi)[2 * i] == Vec2(phi[i], 0.0) && VectorRows(phi)[2 * i + 1] == Vec2(0.0, phi[i])
  {
    if |phi| > 0 {
      var init := phi[..|phi| - 1];
      VectorRowsLayout(init);
      forall i | 0 <= i < |phi|
        ensures VectorRows(phi)[2 * i] == Vec2(phi[i], 0.0) && VectorRows(phi)[2 * i + 1] == Vec2(0.0, phi[i])
      {
        if i < |init| {
          assert init[i] == phi[i];
        }
      }
    }
  }

  /** The two gradients a vector basis builds on the scalar gradient d: d in row 0, d in row 1. */
  function GradientPair(d: Vec2): seq<Mat2>
  {
    [Mat2(d.x, d.y, 0.0, 0.0), Mat2(0.0, 0.0, d.x, d.y)]
  }

  function RowGradients(dphi: seq<Vec2>): seq<Mat2>
    decreases |dphi|
  {
    if |dphi| == 0 then [] else RowGradients(dphi[..|dphi| - 1]) + GradientPair(dphi[|dphi| - 1])
  }

  /** Entry 2i carries dphi_i in row 0, entry 2i + 1 carries it in row 1; the other row is zero. */
  lemma {:induction false} RowGradientsLayout(dphi: seq<Vec2>)
    ensures |RowGradients(dphi)| == 2 * |dphi|
    ensures forall i :: 0 <= i < |dphi| ==>
      && RowGradients(dphi)[2 * i] == Mat2(dphi[i].x, dphi[i].y, 0.0, 0.0)
      && RowGradients(dphi)[2 * i + 1] == Mat2(0.0, 0.0, dphi[i].x, dphi[i].y)
  {
    if |dphi| > 0 {
      var init := dphi[..|dphi| - 1];
      RowGradientsLayout(init);
      forall i | 0 <= i < |dphi|
        ensures RowGradients(dphi)[2 * i] == Mat2(dphi[i].x, dphi[i].y, 0.0, 0.0)
        ensures RowGradients(dphi)[2 * i + 1] == Mat2(0.0, 0.0, dphi[i].x, dphi[i].y)
      {
        if i < |init| {
          assert init[i] == dphi[i];
        }
      }
    }
  }

  /** The four matrices a matrix basis builds on v: v at (0,0), (1,0), (0,1), (1,1), column by column. */
  function MatrixQuad(v: real): seq<Mat2>
  {
    [Single(0, 0, v), Single(1, 0, v), Single(0, 1, v), Single(1, 1, v)]
  }

  function MatrixEntries(phi: seq<real>): seq<Mat2>
    decreases |phi|
  {
    if |phi| == 0 then [] else MatrixEntries(phi[..|phi| - 1]) + MatrixQuad(phi[|phi| - 1])
  }

  /** Entry 4k + 2j + i is phi_k at (i, j) and zero elsewhere. */
  lemma {:induction false} MatrixEntriesLayout(phi: seq<real>)
    ensures |MatrixEntries(phi)| == 4 * |phi|
    ensures forall k, j, i :: 0 <= k < |phi| && 0 <= j < 2 && 0 <= i < 2 ==>
      MatrixEntries(phi)[4 * k + 2 * j + i] == Single(i, j, phi[k])
  {
    if |phi| > 0 {
      var init := phi[..|phi| - 1];
      MatrixEntriesLayout(init);
      forall k, j, i | 0 <= k < |phi| && 0 <= j < 2 && 0 <= i < 2
        ensures MatrixEntries(phi)[4 * k + 2 * j + i] == Single(i, j, phi[k])
      {
        if k < |init| {
          assert init[k] == phi[k];
        } else {
          assert MatrixEntries(phi)[4 * k + 2 * j + i] == MatrixQuad(phi[k])[2 * j + i];
        }
      }
    }
  }

  /** The three symmetric matrices a symmetric basis builds on v: (0,0); (0,1) and (1,0); (1,1). */
  function SymTriple(v: real): seq<Mat2>
  {
    [Single(0, 0, v), Mat2(0.0, v, v, 0.0), Single(1, 1, v)]
  }

  function SymEntries(phi: seq<real>): seq<Mat2>
    decreases |phi|
  {
    if |phi| == 0 then [] else SymEntries(phi[..|phi| - 1]) + SymTriple(phi[|phi| - 1])
  }

  /** Entries 3k, 3k + 1, 3k + 2 carry phi_k at (0,0), at (0,1) and (1,0), and at (1,1). */
  lemma {:induction false} SymEntriesLayout(phi: seq<real>)
    ensures |SymEntries(phi)| == 3 * |phi|
    ensures forall k :: 0 <= k < |phi| ==>
      && SymEntries(phi)[3 * k] == Single(0, 0, phi[k])
      && SymEntries(phi)[3 * k + 1] == Mat2(0.0, phi[k], phi[k], 0.0)
      && SymEntries(phi)[3 * k + 2] == Single(1, 1, phi[k])
  {
    if |phi| > 0 {
      var init := phi[..|phi| - 1];
      SymEntriesLayout(init);
      forall k | 0 <= k < |phi|
        ensures SymEntries(phi)[3 * k] == Single(0, 0, phi[k])
        ensures SymEntries(phi)[3 * k + 1] == Mat2(0.0, phi[k], phi[k], 0.0)
        ensures SymEntries(phi)[3 * k + 2] == Single(1, 1, phi[k])
      {
        if k < |init| {
          assert init[k] == phi[k];
        }
      }
    }
  }

  /** Every entry of a symmetric basis is a symmetric matrix. */
  lemma {:induction false} SymEntriesSymmetric(phi: seq<real>)
    ensures forall e :: 0 <= e < |SymEntries(phi)| ==> SymEntries(phi)[e].Symmetric()
  {
    if |phi| > 0 {
      SymEntriesSymmetric(phi[..|phi| - 1]);
    }
  }

  class VectorCellBasis {
    const scalarBasis: CellBasis
    const degree: nat
    const size: nat := VectorCellSize(degree)

    constructor(bar: Point, h: Positive, degree: nat)
      ensures this.degree == degree
      ensures scalarBasis.bar == bar && scalarBasis.h == h && scalarBasis.degree == degree
    {
      this.degree := degree;
      scalarBasis := new CellBasis(bar, h, degree);
    }

    /** `eval_basis`: a zero matrix with two columns, filled row pair by row pair. */
    method EvalBasis(pt: Point) returns (ret: seq<Vec2>)
      requires scalarBasis.degree == degree
      ensures |ret| == size
      ensures ret == VectorRows(scalarBasis.Values(pt))
    {
      var phi := scalarBasis.EvalBasis(pt);
      ret := InterleaveRows(phi);
      VectorRowsLayout(phi);
      LiftedSizes(degree);
    }

    /** `eval_gradients`: two matrices per scalar gradient, appended in order. */
    method EvalGradients(pt: Point) returns (ret: seq<Mat2>)
      requires scalarBasis.degree == degree
      ensures |ret| == size
      ensures ret == RowGradients(scalarBasis.Gradients(pt))
    {
      var dphi := scalarBasis.EvalGradients(pt);
      ret := LiftGradients(dphi);
      RowGradientsLayout(dphi);
      LiftedSizes(degree);
    }
  }

  /**
   * The loop shared by the vector liftings: a zero matrix with two columns,
   * where row 2i gets phi_i in column 0 and row 2i + 1 gets it in column 1.
   */
  method InterleaveRows(phi: seq<real>) returns (ret: seq<Vec2>)
    ensures ret == VectorRows(phi)
  {
    var a := new Vec2[2 * |phi|];
    var r := 0;
    while r < a.Length
      invariant r <= a.Length
      invariant forall j :: 0 <= j < r ==> a[j] == Vec2(0.0, 0.0)
    {
      a[r] := Vec2(0.0, 0.0);
      r := r + 1;
    }
    var i := 0;
    while i < |phi|
      invariant i <= |phi|
      invariant a[..2 * i] == VectorRows(phi[..i])
      invariant forall j :: 2 * i <= j < a.Length ==> a[j] == Vec2(0.0, 0.0)
    {
      a[2 * i] := a[2 * i].(x := phi[i]);
      a[2 * i + 1] := a[2 * i + 1].(y := phi[i]);
      assert a[..2 * i + 2] == a[..2 * i] + RowPair(phi[i]);
      assert phi[..i + 1][..i] == phi[..i];
      i := i + 1;
    }
    assert a[..] == a[..2 * i];
    assert phi[..i] == phi;
    ret := a[..];
  }

  class VectorFaceBasis {
    const scalarBasis: FaceBasis
    const degree: nat
    const size: nat := VectorFaceSize(degree)

    constructor(faceBar: Point, faceH: Positive, firstPoint: Point, degree: nat)
      ensures this.degree == degree
      ensures scalarBasis.faceBar == faceBar && scalarBasis.faceH == faceH && scalarBasis.degree == degree
      ensures scalarBasis.base == Point(faceBar.x - firstPoint.x, faceBar.y - firstPoint.y)
    {
      this.degree := degree;
      scalarBasis := new FaceBasis(faceBar, faceH, firstPoint, degree);
    }

    /** `eval_basis`: the scalar face basis lifted row pair by row pair; its degree error passes through. */
    method EvalBasis(pt: Point, roots: Roots) returns (r: Result<seq<Vec2>>)
      requires scalarBasis.degree == degree && RootsOf(roots, scalarBasis.faceH)
      ensures degree <= MaxFaceDegree ==> r.Ok? && |r.value| == size
      ensures degree <= MaxFaceDegree ==> r == Ok(VectorRows(scalarBasis.Values(pt, roots)))
      ensures degree > MaxFaceDegree ==> r == Err(UnsupportedDegree(degree))
    {
      var psi := scalarBasis.EvalBasis(pt, roots);
      if psi.Err? {
        return Err(psi.error);
      }
      var rows := InterleaveRows(psi.value);
      VectorRowsLayout(psi.value);
      LiftedSizes(degree);
      return Ok(rows);
    }
  }

  class MatrixCellBasis {
    const scalarBasis: CellBasis
    const degree: nat
    const size: nat := MatrixCellSize(degree)

    constructor(bar: Point, h: Positive, degree: nat)
      ensures this.degree == degree
      ensures scalarBasis.bar == bar && scalarBasis.h == h && scalarBasis.degree == degree
    {
      this.degree := degree;
      scalarBasis := new CellBasis(bar, h, degree);
    }

    /** `eval_basis`: for each phi_k, column j by column j and row i by row i, phi_k alone at (i, j). */
    method EvalBasis(pt: Point) returns (ret: seq<Mat2>)
      requires scalarBasis.degree == degree
      ensures |ret| == size
      ensures ret == MatrixEntries(scalarBasis.Values(pt))
    {
      var phi := scalarBasis.EvalBasis(pt);
      ret := LiftMatrices(phi);
      MatrixEntriesLayout(phi);
      LiftedSizes(degree);
    }
  }

  class SymMatrixCellBasis {
    const scalarBasis: CellBasis
    const degree: nat
    const size: nat := SymMatrixCellSize(degree)

    constructor(bar: Point, h: Positive, degree: nat)
      ensures this.degree == degree
      ensures scalarBasis.bar == bar && scalarBasis.h == h && scalarBasis.degree == degree
    {
      this.degree := degree;
      scalarBasis := new CellBasis(bar, h, degree);
    }

    /** `eval_basis`: three symmetric matrices per phi_k, appended in order. */
    method EvalBasis(pt: Point) returns (ret: seq<Mat2>)
      requires scalarBasis.degree == degree
      ensures |ret| == size
      ensures ret == SymEntries(scalarBasis.Values(pt))
    {
      var phi := scalarBasis.EvalBasis(pt);
      ret := LiftSymmetric(phi);
      SymEntriesLayout(phi);
      LiftedSizes(degree);
    }
  }

  /** The loop of the vector `eval_gradients`: dphi_i in row 0, then in row 1, of zero matrices. */
  method LiftGradients(dphi: seq<Vec2>) returns (ret: seq<Mat2>)
    ensures ret == RowGradients(dphi)
  {
    ret := [];
    var i := 0;
    while i < |dphi|
      invariant i <= |dphi|
      invariant ret == RowGradients(dphi[..i])
    {
      var g := Mat2(dphi[i].x, dphi[i].y, 0.0, 0.0);
      ret := ret + [g];
      g := Mat2(0.0, 0.0, dphi[i].x, dphi[i].y);
      ret := ret + [g];
      assert dphi[..i + 1][..i] == dphi[..i];
      i := i + 1;
    }
    assert dphi[..i] == dphi;
  }

  /** The loops of the matrix `eval_basis`: for each phi_k, by column j and then row i, phi_k alone at (i, j). */
  method LiftMatrices(phi: seq<real>) returns (ret: seq<Mat2>)
    ensures ret == MatrixEntries(phi)
  {
    ret := [];
    var k := 0;
    while k < |phi|
      invariant k <= |phi|
      invariant ret == MatrixEntries(phi[..k])
    {
      ghost var done := ret;
      var j := 0;
      while j < 2
        invariant j <= 2
        invariant ret == done + MatrixQuad(phi[k])[..2 * j]
      {
        var i := 0;
        while i < 2
          invariant i <= 2
          invariant ret == done + MatrixQuad(phi[k])[..2 * j + i]
        {
          ret := ret + [Single(i, j, phi[k])];
          assert MatrixQuad(phi[k])[..2 * j + i + 1] == MatrixQuad(phi[k])[..2 * j + i] + [Single(i, j, phi[k])];
          i := i + 1;
        }
        j := j + 1;
      }
      assert phi[..k + 1][..k] == phi[..k];
      k := k + 1;
    }
    assert phi[..k] == phi;
  }

  /** The loop of the symmetric `eval_basis`: three matrices per phi_k. */
  method LiftSymmetric(phi: seq<real>) returns (ret: seq<Mat2>)
    ensures ret == SymEntries(phi)
  {
    ret := [];
    var k := 0;
    while k < |phi|
      invariant k <= |phi|
      invariant ret == SymEntries(phi[..k])
    {
      var fc := Single(0, 0, phi[k]);
      ret := ret + [fc];
      fc := Mat2(0.0, phi[k], phi[k], 0.0);
      ret := ret + [fc];
      fc := Single(1, 1, phi[k]);
      ret := ret + [fc];
      assert phi[..k + 1][..k] == phi[..k];
      k := k + 1;
    }
    assert phi[..k] == phi;
  }
}
