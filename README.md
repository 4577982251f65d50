# ProtoN basis engine and analytic level sets, in Dafny

This project models two headers of ProtoN, a C++ prototyping code for cut
(unfitted) hybrid high-order methods.

- `src/core/core_bits/bases.hpp` is the polynomial basis engine. It covers:
  - exponentiation by squaring (`iexp_pow`) and the binomial dimension (`basis_size`);
  - the scaled monomial cell basis and the Legendre face basis;
  - the vector, matrix and symmetric-matrix liftings;
  - the reference nodes of the unit interval and the unit triangle;
  - the nodal Lagrange bases on the triangle (closed forms, degrees 1 to 4) and on the interval (product formula, first and second derivatives).
- `src/core/core_bits/level_set.hpp` holds the analytic level-set functions that need neither `sqrt` nor transcendental functions:
  - the square, rotated-square and M-shaped box fields;
  - the circle, ellipse and Couette polynomial fields;
  - the line field.

Every coordinate is a Dafny `real`, so the arithmetic is exact rational arithmetic.

How the source maps to Dafny:

- Basis objects become classes whose fields are fixed by the constructor.
- Loops of the source become methods with loop invariants. Each method is proved equal to a specification function.
- The properties are stated and proved about those functions:
  - entry layouts and counts;
  - Kronecker properties at the reference nodes;
  - gradients being exact derivatives.
- A derivative is stated as an exact expansion `Expanded(f(p + t v), f(p), D, R, t)`, meaning `f(p + t v) = f(p) + t D + t^2 R`. The first-order coefficient D is then the directional derivative, with no limits needed.
- The mesh queries `barycenter`, `diameter` and `points` become constructor parameters.
- `exit(9)` and `throw` become `Err(UnsupportedDegree(d))` results.

Modules:

| module | file | contents |
|---|---|---|
| `Common` | common.dfy | points, 2-vectors, 2x2 matrices, `Result`/`Option`, `Abs`, `Min` |
| `Power` | power.dfy | `iexp_pow`, the power function and its exact expansion |
| `Combinatorics` | combinatorics.dfy | factorials, binomials, `basis_size` |
| `Layout` | layout.dfy | the triangular index `k(k+1)/2 + i` of the monomial enumeration |
| `Polynomials` | legendre.dfy | Legendre polynomials by Bonnet's recursion |
| `Quartics` | quartics.dfy | bivariate polynomials of degree at most 4 and their formal derivatives |
| `ReferenceNodes` | reference_nodes.dfy | interval and triangle reference nodes |
| `CellBases` | cell_basis.dfy | `cell_basis` |
| `FaceBases` | face_basis.dfy | `face_basis` |
| `Liftings` | liftings.dfy | `vector_cell_basis`, `vector_face_basis`, `matrix_cell_basis`, `sym_matrix_cell_basis` |
| `TriangleLagrange` | lagrange_triangle.dfy | `cell_basis_triangle_Lagrange` |
| `IntervalLagrange` | lagrange_interval.dfy | `cell_basis_Lagrange_1d_reference_new` |
| `LevelSets` | level_sets.dfy | the level-set fields |

## Model

| member | source | states |
|---|---|---|
| Power.IExpPow | src/core/core_bits/bases.hpp:27-50 | Squaring returns x^n for every n, including 1 for n = 0 (even when x = 0). The loop keeps y * base^e equal to x^n while e strictly decreases. |
| Power.PowAdd | src/core/core_bits/bases.hpp:27-50 | x^(a+b) = x^a * x^b: the power the loop builds obeys the exponent law |
| Power.PowOfSquare | src/core/core_bits/bases.hpp:36-45 | (x*x)^m = x^(2m): replacing x by x*x and halving n preserves the power |
| Power.DPowClosedForm | src/core/core_bits/bases.hpp:498-499 | The product-rule derivative of t^p is p * t^(p-1), the factor the gradients use |
| Power.PowExpansion | src/core/core_bits/bases.hpp:496-499 | (a+t)^p = a^p + t * DPow(a,p) + t^2 * R: DPow is the exact derivative of the power |
| Power.ExpansionInductive | src/core/core_bits/bases.hpp:496-499 | The expansion of (a+t)^(p-1) yields the expansion of (a+t)^p |
| Combinatorics.ChooseFactorial | src/core/core_bits/bases.hpp:53-65 | C(n,r) * r! * (n-r)! = n!, linking the recursive binomial to factorials |
| Combinatorics.ChooseAbove | src/core/core_bits/bases.hpp:53-65 | C(n,r) = 0 when r > n |
| Combinatorics.RisingFact | src/core/core_bits/bases.hpp:58-62 | The accumulated product (k+1)...(k+d) times k! equals (k+d)! |
| Combinatorics.RisingChoose | src/core/core_bits/bases.hpp:58-64 | num = (k+1)...(k+d) equals C(k+d,d) * d!, so num/den is exact |
| Combinatorics.ExactQuotient | src/core/core_bits/bases.hpp:64 | An integer division whose dividend is a multiple of the divisor has no remainder and returns the cofactor |
| Combinatorics.BasisSize | src/core/core_bits/bases.hpp:53-65 | basis_size(k,d) returns the binomial C(k+d,d); the loop keeps num = (k+1)...(k+i) and den = i! |
| Combinatorics.ChooseTwo | src/core/core_bits/bases.hpp:522-525 | C(k+2,2) = (k+2)(k+1)/2, the cell basis size |
| Combinatorics.ChooseOne | src/core/core_bits/bases.hpp:655-658 | C(k+1,1) = k+1, the face basis size |
| Layout.TriFormula | src/core/core_bits/bases.hpp:441-456 | The number of monomials of degree below n is n(n+1)/2 |
| Layout.TriChoose | src/core/core_bits/bases.hpp:441-456 | That count is C(n+1,2) |
| Layout.TriMonotone | src/core/core_bits/bases.hpp:441-456 | Later degrees start after every earlier position |
| Layout.IdxInjective | src/core/core_bits/bases.hpp:441-453 | Distinct exponent pairs (k,i) with i <= k land at distinct positions k(k+1)/2+i |
| Layout.DegreeAt | src/core/core_bits/bases.hpp:441-453 | Every position j lies in the block of exactly one total degree k |
| Layout.Unrank | src/core/core_bits/bases.hpp:441-453 | Every position j is written for exactly one pair (k,i), with i <= k |
| Layout.UnrankIdx | src/core/core_bits/bases.hpp:441-453 | Unrank inverts the position map on every pair with i <= k |
| Layout.IdxBelow | src/core/core_bits/bases.hpp:441-456 | Position k(k+1)/2+i is below the count for degree n if and only if k < n |
| Layout.EnumerateAt | src/core/core_bits/bases.hpp:441-453 | The enumeration puts f(k-i,i) at position k(k+1)/2+i |
| Layout.EnumerateLists | src/core/core_bits/bases.hpp:441-456 | The enumeration has exactly n(n+1)/2 entries in the source's order |
| Layout.ListsUnique | src/core/core_bits/bases.hpp:441-456 | Two sequences that both follow the order are equal, so the layout is fully determined |
| CellBases.CellSizeIsBinomial | src/core/core_bits/bases.hpp:416 | (degree+2)(degree+1)/2 equals C(degree+2,2) and the monomial count of the enumeration |
| CellBases.MonomialAt | src/core/core_bits/bases.hpp:450 | One entry of eval_basis is bx^(k-i) * by^i, each power by squaring |
| CellBases.GradientAt | src/core/core_bits/bases.hpp:496-501 | One gradient entry is (px*ih*bx^(px-1)*by^py, bx^px*py*ih*by^(py-1)); a component is 0 when its exponent is 0 |
| CellBases.FillValues | src/core/core_bits/bases.hpp:441-456 | The nested loops with the running pos write each monomial at its position and write exactly size entries |
| CellBases.FillGradients | src/core/core_bits/bases.hpp:488-507 | The gradient loops use the same order and count as the value loops |
| CellBases.DFactorIsDerivative | src/core/core_bits/bases.hpp:498-499 | The source's factor (p == 0 ? 0 : p*ih*b^(p-1)) is ih times the derivative of b^p |
| CellBases.MonomialDerivativeX | src/core/core_bits/bases.hpp:496-501 | Moving bx by t*ih changes bx^p*by^q by t times the x gradient factor, up to t^2 |
| CellBases.MonomialDerivativeY | src/core/core_bits/bases.hpp:496-501 | The same for by and the y gradient factor |
| CellBases.EntryDerivativeX | src/core/core_bits/bases.hpp:496-501 | Each gradient entry's x component is the exact x derivative of its value entry |
| CellBases.EntryDerivativeY | src/core/core_bits/bases.hpp:496-501 | Each gradient entry's y component is the exact y derivative of its value entry |
| CellBases.MonomialAtOrigin | src/core/core_bits/bases.hpp:450 | At bx = by = 0 only the constant monomial is nonzero, and it is 1 (0^0 = 1) |
| CellBases.ValuesAt | src/core/core_bits/bases.hpp:441-456 | Position k(k+1)/2+i of the value list holds bx^(k-i)*by^i |
| CellBases.GradientsAt | src/core/core_bits/bases.hpp:488-507 | Position k(k+1)/2+i of the gradient list holds the gradient of the same monomial |
| CellBases.ScaleShift | src/core/core_bits/bases.hpp:425-426 | Moving pt by t in x or y moves (bx,by) by t*(2/h) in that coordinate only |
| CellBases.ShiftQuotient | src/core/core_bits/bases.hpp:425-426 | (a+t)/(h/2) = a/(h/2) + t*(2/h) |
| CellBases.CellBasis.constructor | src/core/core_bits/bases.hpp:412-418 | Stores barycentre, diameter and degree; size is (degree+2)(degree+1)/2 |
| CellBases.CellBasis.EvalBasis | src/core/core_bits/bases.hpp:419-459 | Returns exactly size entries: the scaled monomials in enumeration order |
| CellBases.CellBasis.EvalGradients | src/core/core_bits/bases.hpp:461-510 | Returns exactly size gradient rows, in the same order |
| CellBases.CellBasis.BasisAtBarycenter | src/core/core_bits/bases.hpp:419-459 | At the barycentre entry 0 is 1 and every other entry is 0 |
| CellBases.CellBasis.EntryAt | src/core/core_bits/bases.hpp:441-507 | Value and gradient lists have size entries. Entry k(k+1)/2+i is bx^(k-i)*by^i with bx = (x-bar.x)/(h/2), and its gradient is the chain-rule form |
| CellBases.CellBasis.EntryUnranked | src/core/core_bits/bases.hpp:441-507 | Every position j < size holds the monomial of the unique pair (k,i) that position j belongs to |
| CellBases.CellBasis.ShiftedEntryX | src/core/core_bits/bases.hpp:425-450 | Entry j at the point moved by t in x is the monomial at bx + t*(2/h) |
| CellBases.CellBasis.ShiftedEntryY | src/core/core_bits/bases.hpp:425-450 | Entry j at the point moved by t in y is the monomial at by + t*(2/h) |
| CellBases.CellBasis.GradientIsDerivativeX | src/core/core_bits/bases.hpp:461-510 | Column 0 of each eval_gradients row is the exact x derivative of the matching eval_basis entry |
| CellBases.CellBasis.GradientIsDerivativeY | src/core/core_bits/bases.hpp:461-510 | Column 1 of each eval_gradients row is the exact y derivative of the matching eval_basis entry |
| FaceBases.FaceSizeIsBinomial | src/core/core_bits/bases.hpp:589 | degree+1 equals C(degree+1,1) |
| Polynomials.LegendreAtOne | src/core/core_bits/bases.hpp:607-638 | Every Legendre polynomial is 1 at ep = 1 |
| FaceBases.LegendreDegree4 | src/core/core_bits/bases.hpp:624 | 35x^4 - 30x^2 + 3 = 8 P4(x) |
| FaceBases.LegendreDegree7 | src/core/core_bits/bases.hpp:637 | 429x^7 - 693x^5 + 315x^3 - 35x = 16 P7(x) |
| FaceBases.FaceTermIsLegendre | src/core/core_bits/bases.hpp:605-638 | Each polynomial the source writes for entry i (i <= 7) is a fixed multiple of the Legendre polynomial P_i(ep) |
| FaceBases.EntryIsLegendre | src/core/core_bits/bases.hpp:605-638 | Entry i is that multiple of P_i(ep), times sqrt(radicand_i), divided by the divisor and by coeff |
| FaceBases.NormaliserSquared | src/core/core_bits/bases.hpp:605-638 | The constant multiplying P_i(ep)/coeff in entry i is positive and squares to (2i+1)/2 |
| FaceBases.ScaleTable | src/core/core_bits/bases.hpp:605-638 | The tabulated radicands and divisors give squared constants (2i+1)/2 for i = 0..7 |
| FaceBases.FaceBasis.constructor | src/core/core_bits/bases.hpp:584-593 | Stores barycentre, diameter and degree; base = barycentre - first point; size is degree+1 |
| FaceBases.FaceBasis.EvalBasis | src/core/core_bits/bases.hpp:595-643 | degree <= 7 gives degree+1 entries, entry i being the source's closed form in ep; degree > 7 gives the error the source throws |
| FaceBases.FaceBasis.FilledValues | src/core/core_bits/bases.hpp:595-643 | A sequence with the right count whose every entry is the source's formula is the value list |
| FaceBases.FaceBasis.ValuesAreLegendre | src/core/core_bits/bases.hpp:595-643 | For degree <= 7 there are degree+1 entries, and entry i is a positive multiple of P_i(ep) |
| FaceBases.FaceBasis.EpAtVertices | src/core/core_bits/bases.hpp:600-603 | On a face whose half-length is |base|, ep is -1 at the first vertex and +1 at the other |
| FaceBases.FaceBasis.EpAt | src/core/core_bits/bases.hpp:600-603 | ep is the affine coordinate along the face: bar + k*base maps to k |
| FaceBases.FaceBasis.Ep | src/core/core_bits/bases.hpp:600-603 | ep is 0 at the barycentre and has the sign of the projection of pt - bar on base |
| Liftings.LiftedSizes | src/core/core_bits/bases.hpp:684-978 | The lifted sizes of the four liftings (constructors and static sizes) are 2S, 2S, 4S and 3S for scalar size S |
| Liftings.VectorRowsLayout | src/core/core_bits/bases.hpp:702-706 | 2S rows: row 2i is (phi_i, 0) and row 2i+1 is (0, phi_i) |
| Liftings.RowGradientsLayout | src/core/core_bits/bases.hpp:721-733 | 2S matrices: entry 2i has dphi_i in row 0 and zeros elsewhere; entry 2i+1 has it in row 1 |
| Liftings.MatrixEntriesLayout | src/core/core_bits/bases.hpp:864-877 | 4S matrices: entry 4k+2j+i has phi_k at (i,j) and 0 elsewhere |
| Liftings.SymEntriesLayout | src/core/core_bits/bases.hpp:942-958 | 3S matrices: entries 3k, 3k+1 and 3k+2 carry phi_k at (0,0), at both (0,1) and (1,0), and at (1,1) |
| Liftings.SymEntriesSymmetric | src/core/core_bits/bases.hpp:942-958 | Every symmetric-basis entry is a symmetric matrix |
| Liftings.InterleaveRows | src/core/core_bits/bases.hpp:696-710 | The loop over phi writes the interleaved vector rows |
| Liftings.LiftGradients | src/core/core_bits/bases.hpp:716-738 | The loop over dphi pushes the row-placed gradient matrices |
| Liftings.LiftMatrices | src/core/core_bits/bases.hpp:857-881 | The triple loop pushes the 4 unit-position matrices per scalar |
| Liftings.LiftSymmetric | src/core/core_bits/bases.hpp:935-963 | The loop pushes the 3 symmetric matrices per scalar |
| Liftings.VectorCellBasis.constructor | src/core/core_bits/bases.hpp:684-691 | Builds the scalar cell basis of the same degree on the same cell |
| Liftings.VectorCellBasis.EvalBasis | src/core/core_bits/bases.hpp:694-711 | Returns 2S rows, the interleaved lifting of the scalar values |
| Liftings.VectorCellBasis.EvalGradients | src/core/core_bits/bases.hpp:714-739 | Returns 2S matrices, the row lifting of the scalar gradients |
| Liftings.VectorFaceBasis.constructor | src/core/core_bits/bases.hpp:777-785 | Builds the scalar face basis of the same degree on the same face |
| Liftings.VectorFaceBasis.EvalBasis | src/core/core_bits/bases.hpp:790-805 | For degree <= 7, returns 2S interleaved rows of the face values; otherwise passes on the scalar basis's error |
| Liftings.MatrixCellBasis.constructor | src/core/core_bits/bases.hpp:845-852 | Builds the scalar cell basis of the same degree |
| Liftings.MatrixCellBasis.EvalBasis | src/core/core_bits/bases.hpp:855-882 | Returns 4S matrices in the (k,j,i) layout |
| Liftings.SymMatrixCellBasis.constructor | src/core/core_bits/bases.hpp:923-930 | Builds the scalar cell basis of the same degree |
| Liftings.SymMatrixCellBasis.EvalBasis | src/core/core_bits/bases.hpp:933-964 | Returns 3S symmetric matrices in the source's layout |
| ReferenceNodes.Interior | src/core/core_bits/bases.hpp:1059-1069 | The interior nodes of the default branch are 1/d, ..., n/d |
| ReferenceNodes.IntervalNodes | src/core/core_bits/bases.hpp:988-1075 | degree+1 nodes; for degree >= 1 they start 0, 1 |
| ReferenceNodes.OrderedNodes01 | src/core/core_bits/bases.hpp:988-1075 | Builds the tables for degrees 0..4, and 0, 1, 1/d, ..., (d-1)/d beyond, by the source's accumulation loop |
| ReferenceNodes.FractionBelowOne | src/core/core_bits/bases.hpp:1065 | The loop guard a1 < 1 holds exactly while j < d |
| ReferenceNodes.IntervalNodesInUnitInterval | src/core/core_bits/bases.hpp:988-1075 | Every interval node lies in [0,1] |
| ReferenceNodes.IntervalNodesDistinct | src/core/core_bits/bases.hpp:988-1075 | The interval nodes are pairwise distinct |
| ReferenceNodes.TriangleNodes | src/core/core_bits/bases.hpp:1079-1217 | Degrees 1..4 give (d+1)(d+2)/2 nodes starting (0,0), (1,0), (0,1); any other degree gives none |
| ReferenceNodes.TriangleNodesValid | src/core/core_bits/bases.hpp:1079-1217 | Every triangle node lies in the closed unit triangle and the nodes are pairwise distinct |
| TriangleLagrange.Degree1Expanded | src/core/core_bits/bases.hpp:1333-1344 | Each degree-1 closed form (values at 1256-1261, gradients here) equals a coefficient-table polynomial, and its gradient equals that polynomial's formal derivatives |
| TriangleLagrange.Degree2Expanded | src/core/core_bits/bases.hpp:1345-1364 | The same for the 6 degree-2 closed forms (values at 1262-1270) |
| TriangleLagrange.Degree3Expanded | src/core/core_bits/bases.hpp:1365-1401 | The same for the 10 degree-3 closed forms (values at 1271-1286) |
| TriangleLagrange.Degree4Expanded | src/core/core_bits/bases.hpp:1402-1458 | The same for the 15 degree-4 closed forms (values at 1287-1313) |
| TriangleLagrange.Degree1Kronecker | src/core/core_bits/bases.hpp:1256-1261 | Degree-1 function k at corner j is 1 if j = k and 0 otherwise |
| TriangleLagrange.Degree2Kronecker | src/core/core_bits/bases.hpp:1262-1270 | Degree-2 function k at node j is 1 if j = k and 0 otherwise |
| TriangleLagrange.Degree3Kronecker | src/core/core_bits/bases.hpp:1271-1286 | Degree-3 function k at node j is 1 if j = k and 0 otherwise |
| TriangleLagrange.Degree4Kronecker | src/core/core_bits/bases.hpp:1287-1313 | Degree-4 function k at node j is 1 if j = k and 0 otherwise |
| TriangleLagrange.ClosedFormExpansion | src/core/core_bits/bases.hpp:1248-1467 | For degrees 1..4, every value entry is a polynomial and its gradient entry is that polynomial's formal partial derivatives |
| TriangleLagrange.NodalProperty | src/core/core_bits/bases.hpp:1248-1323 | For degrees 1..4, basis function k at reference node j is the Kronecker delta |
| TriangleLagrange.ExpandedFromCoeffs | src/core/core_bits/bases.hpp:1325-1467 | Formal derivatives of a coefficient table are the exact x and y derivatives of the evaluated polynomial |
| Quartics.ExpansionX | src/core/core_bits/bases.hpp:1325-1467 | For every polynomial of degree <= 4, DX is the exact x derivative |
| Quartics.ExpansionY | src/core/core_bits/bases.hpp:1325-1467 | For every polynomial of degree <= 4, DY is the exact y derivative |
| TriangleLagrange.TriangleBasis.constructor | src/core/core_bits/bases.hpp:1238-1244 | size is (degree+1)(degree+2)/2; for degrees 1..4 there are that many reference nodes |
| TriangleLagrange.TriangleBasis.EvalBasis | src/core/core_bits/bases.hpp:1248-1323 | Succeeds with size entries exactly for degrees 1..4; any other degree gives the error where the source exits |
| TriangleLagrange.TriangleBasis.EvalGradients | src/core/core_bits/bases.hpp:1325-1467 | Ok with size gradient rows exactly for degrees 1..4, and the unsupported-degree error where the source exits |
| TriangleLagrange.TriangleBasis.EntryOf | src/core/core_bits/bases.hpp:1248-1467 | Entry k of eval_basis and eval_gradients is the degree's closed form k |
| TriangleLagrange.TriangleBasis.KroneckerAtNodes | src/core/core_bits/bases.hpp:1238-1323 | eval_basis at reference node j has 1 at index j and 0 elsewhere |
| TriangleLagrange.TriangleBasis.GradientsAreDerivatives | src/core/core_bits/bases.hpp:1325-1467 | Both columns of each eval_gradients row are the exact partial derivatives of the matching eval_basis entry |
| IntervalLagrange.BasisFactors | src/core/core_bits/bases.hpp:1515-1526 | The basis product splits into the constant 1/prod(x_k - x_j) times prod(x - x_j) |
| IntervalLagrange.BasisAtOwnNode | src/core/core_bits/bases.hpp:1515-1526 | Basis k is 1 at node k |
| IntervalLagrange.BasisAtOtherNode | src/core/core_bits/bases.hpp:1515-1526 | Basis k is 0 at every other node |
| IntervalLagrange.ProductRule | src/core/core_bits/bases.hpp:1547-1572 | The sum over m of the products without m is the exact derivative of the product |
| IntervalLagrange.SumRule | src/core/core_bits/bases.hpp:1593-1697 | The sum of the products without two indices is the exact derivative of that derivative sum |
| IntervalLagrange.ValueAtNodes | src/core/core_bits/bases.hpp:1515-1526 | Basis k at node j is the Kronecker delta |
| IntervalLagrange.ValueExpansion | src/core/core_bits/bases.hpp:1541-1580 | The first derivative is the exact derivative of the basis value |
| IntervalLagrange.DerivativeExpansion | src/core/core_bits/bases.hpp:1583-1697 | The second derivative is the exact derivative of the first |
| IntervalLagrange.ProdIsElementary | src/core/core_bits/bases.hpp:1610-1697 | The product over the other nodes is the top elementary symmetric sum of its factors |
| IntervalLagrange.DSumIsElementary | src/core/core_bits/bases.hpp:1610-1697 | The first-derivative sum is the next elementary symmetric sum |
| IntervalLagrange.D2SumIsElementary | src/core/core_bits/bases.hpp:1610-1697 | The second-derivative sum is twice the elementary symmetric sum two below the top |
| IntervalLagrange.LinSumIsElementary | src/core/core_bits/bases.hpp:1610-1647 | The degree-3 scheme's sum of 2*(x - x_j) is twice the first elementary sum |
| IntervalLagrange.PairSumIsElementary | src/core/core_bits/bases.hpp:1650-1697 | The degree-4 scheme's sum of 2*(x - x_j)(x - x_l) over pairs is twice the second elementary sum |
| IntervalLagrange.D2SumClosedForms | src/core/core_bits/bases.hpp:1591-1697 | The second-derivative sum is 0 for 2 nodes, 2 for 3, the linear sum for 4 and the pair sum for 5 |
| IntervalLagrange.BasisValue | src/core/core_bits/bases.hpp:1520-1528 | The inner loop of eval_basis_1d computes basis k at pt |
| IntervalLagrange.Values | src/core/core_bits/bases.hpp:1511-1534 | eval_basis_1d returns one value per node, entry k being basis k at pt |
| IntervalLagrange.BasisDerivative | src/core/core_bits/bases.hpp:1547-1572 | The loops of eval_gradients_1d compute the derivative of basis k at pt |
| IntervalLagrange.ProductBut | src/core/core_bits/bases.hpp:1559-1565 | The jx loop multiplies (pt - x_jx) over every jx other than tmpx and k |
| IntervalLagrange.Derivatives | src/core/core_bits/bases.hpp:1541-1580 | eval_gradients_1d returns one entry per node, entry k being the derivative of basis k |
| IntervalLagrange.ConstantFactor | src/core/core_bits/bases.hpp:1597-1602 | bk_der accumulates 1/prod_{j != k}(x_k - x_j) |
| IntervalLagrange.QuadraticSecondDerivative | src/core/core_bits/bases.hpp:1593-1609 | For degree 2, 2*bk_der is the second derivative of basis k |
| IntervalLagrange.FirstFactor | src/core/core_bits/bases.hpp:1625-1636 | The while loop multiplies in the first factor at or after tmpx that is not k |
| IntervalLagrange.CubicSecondDerivative | src/core/core_bits/bases.hpp:1610-1647 | For degree 3, bk_der * b_tot is the second derivative of basis k |
| IntervalLagrange.NextPartner | src/core/core_bits/bases.hpp:1671-1679 | The inner while loop multiplies in the next factor that is neither k nor pos |
| IntervalLagrange.PairRow | src/core/core_bits/bases.hpp:1659-1683 | One pass of the amount loop adds the products of pos's factor with each later partner |
| IntervalLagrange.PairEnumeration | src/core/core_bits/bases.hpp:1658-1683 | The amount loop adds 2*(x - x_j)(x - x_l) over the rows it visits |
| IntervalLagrange.RowsArePairs | src/core/core_bits/bases.hpp:1650-1697 | The rows the degree-4 scheme visits add up to the sum over all pairs of other nodes |
| IntervalLagrange.QuarticSecondDerivative | src/core/core_bits/bases.hpp:1650-1697 | For degree 4, bk_der * b_tot is the second derivative of basis k |
| IntervalLagrange.SecondDerivatives | src/core/core_bits/bases.hpp:1593-1697 | For 3 to 5 nodes, entry k is the second derivative of basis k |
| IntervalLagrange.IntervalNodesAreDistinct | src/core/core_bits/bases.hpp:1501 | The reference nodes are distinct, so every division by x_k - x_j is defined |
| IntervalLagrange.IntervalBasis.constructor | src/core/core_bits/bases.hpp:1497-1503 | size is degree+1 and the nodes are the ordered reference nodes |
| IntervalLagrange.IntervalBasis.EvalBasis | src/core/core_bits/bases.hpp:1511-1534 | size entries, entry k being basis k at pt |
| IntervalLagrange.IntervalBasis.EvalGradients | src/core/core_bits/bases.hpp:1541-1580 | size entries, entry k being the derivative of basis k |
| IntervalLagrange.IntervalBasis.EvalDoubleDerivative | src/core/core_bits/bases.hpp:1583-1700 | Degree 0 is the exit, as an error. Degrees 1..4 give the second derivatives, zeros for degree 1. Beyond 4, zeros. |
| IntervalLagrange.IntervalBasis.KroneckerAtNodes | src/core/core_bits/bases.hpp:1511-1534 | eval_basis_1d at node j is 1 at index j and 0 elsewhere |
| IntervalLagrange.IntervalBasis.GradientsAreDerivatives | src/core/core_bits/bases.hpp:1541-1580 | Each eval_gradients_1d entry is the exact derivative of the eval_basis_1d entry |
| IntervalLagrange.IntervalBasis.DoubleDerivativesAreDerivatives | src/core/core_bits/bases.hpp:1583-1700 | The second derivative is the exact derivative of the first |
| LevelSets.BoxFieldSign | src/core/core_bits/level_set.hpp:128-138 | -in * min(distances) is <= 0 inside, >= 0 outside, and 0 exactly on one of the four lines |
| LevelSets.Nearest | src/core/core_bits/level_set.hpp:976-998 | The scan with strict < returns an index of the list |
| LevelSets.NearestIsFirstMinimum | src/core/core_bits/level_set.hpp:976-998 | The index returned holds the minimum, and every earlier entry is strictly larger: ties go to the earlier edge |
| LevelSets.FirstMinimumIsNearest | src/core/core_bits/level_set.hpp:976-998 | Conversely, the first minimal index is the one the scan returns |
| LevelSets.NearestOfFour | src/core/core_bits/level_set.hpp:176-221 | The four-way scan, spelled out as the source's chain of comparisons |
| LevelSets.SquareLevelSet.ValueSign | src/core/core_bits/level_set.hpp:952-968 | <= 0 inside the open box, >= 0 outside; 0 exactly on the four lines x = x_left, x = x_right, y = y_bot and y = y_top, also outside the box |
| LevelSets.UnitSquareSamples | src/core/core_bits/level_set.hpp:950-968 | On the unit square the value is -0.5 at the centre (0.5, 0.5) and +0.5 at the outside point (-1, 0.5) |
| LevelSets.SquareLevelSet.Value | src/core/core_bits/level_set.hpp:952-968 | The value is negative exactly at the points strictly inside the box |
| LevelSets.SquareLevelSet.EdgeDistances | src/core/core_bits/level_set.hpp:970-1001 | The four distances the gradient scans, left, right, bottom and top |
| LevelSets.SquareLevelSet.Gradient | src/core/core_bits/level_set.hpp:970-1001 | The scan returns the unit outward normal of the first nearest edge, (-1,0), (1,0), (0,-1) or (0,1) |
| LevelSets.SquareLevelSet.GradientEdgeIsNearest | src/core/core_bits/level_set.hpp:952-1001 | The edge the gradient picks is at distance |value| and no edge is nearer |
| LevelSets.EdgeNormal | src/core/core_bits/level_set.hpp:976-998 | Every gradient the square field returns is an axis unit vector |
| LevelSets.LineThrough | src/core/core_bits/level_set.hpp:93-123 | Slope and intercept from two points give the line y = m*x + c through them |
| LevelSets.RotatedSquare.Lines | src/core/core_bits/level_set.hpp:93-123 | For R != 0 the four side lines are y = x - xc + yc - R, -x + xc + yc + R, x - xc + yc + R and -x + xc + yc - R |
| LevelSets.RotatedSquare.LinesDegenerate | src/core/core_bits/level_set.hpp:93-123 | For R = 0 every slope is 0/0, so no side line exists |
| LevelSets.RotatedSquare.InsideIsDiamond | src/core/core_bits/level_set.hpp:93-131 | The four side tests hold together exactly inside the diamond |x - xc| + |y - yc| < R |
| LevelSets.RotatedSquare.Value | src/core/core_bits/level_set.hpp:72-139 | The value is negative exactly where the four side tests put the point inside |
| LevelSets.RotatedSquare.ValueSign | src/core/core_bits/level_set.hpp:72-139 | <= 0 inside, >= 0 outside; 0 exactly on the lines x = xc +- R and y = yc +- R |
| LevelSets.RotatedSquare.ValueAtCentre | src/core/core_bits/level_set.hpp:72-139 | For R > 0 the value at the centre is -R |
| LevelSets.RotatedSquare.NearestSide | src/core/core_bits/level_set.hpp:170-221 | The side picked is one of 1..4, never 0 |
| LevelSets.RotatedSquare.Gradient | src/core/core_bits/level_set.hpp:143-293 | The scan returns the direction of the first nearest side line |
| LevelSets.Direction | src/core/core_bits/level_set.hpp:268-291 | The four directions have both components of size 1/2, with the source's sign patterns |
| LevelSets.RotatedSquare.DirectionIsOutwardNormal | src/core/core_bits/level_set.hpp:268-291 | The direction of side s is orthogonal to side s and points away from the centre |
| LevelSets.MShaped.ValueSign | src/core/core_bits/level_set.hpp:321-361 | <= 0 where the inside test holds, >= 0 elsewhere; 0 exactly on x = a, x = b, y = a and y = d |
| LevelSets.MShaped.Inside | src/core/core_bits/level_set.hpp:321-361 | An inside point lies strictly between x = a and x = b, above y = a, and off the dip line y = c |
| LevelSets.MShaped.Value | src/core/core_bits/level_set.hpp:321-361 | The value is negative exactly at the inside points off the top line y = d |
| LevelSets.MShaped.DegenerateBox | src/core/core_bits/level_set.hpp:321-361 | With a = 0.5 (so b = 0.5) no point is inside and the field is the plain distance to the nearest of the four lines, never negative |
| LevelSets.MShaped.RoofEnds | src/core/core_bits/level_set.hpp:334-346 | The two roof lines meet at (0.5, c) and reach height d at x = a and x = b |
| LevelSets.QuadricExpansion | src/core/core_bits/level_set.hpp:566-580 | Along p + t*v, a weighted quadric changes by t times its gradient's directional part plus t^2 times its weighted |v|^2 |
| LevelSets.CircleLevelSet.GradientIsDerivative | src/core/core_bits/level_set.hpp:566-580 | f(p + t v) = f(p) + t (grad f(p) . v) + t^2 |v|^2 |
| LevelSets.CircleLevelSet.ValueAtCentreAndAxes | src/core/core_bits/level_set.hpp:566-571 | Negative at the centre when r != 0, and 0 at the four points at distance r along the axes |
| LevelSets.CircleLevelSet.CentreValue | src/core/core_bits/level_set.hpp:566-571 | The value at the centre is -r^2 |
| LevelSets.CircleLevelSet.Value | src/core/core_bits/level_set.hpp:566-572 | The value is at least -r^2, and equals -r^2 exactly at the centre |
| LevelSets.CircleLevelSet.Gradient | src/core/core_bits/level_set.hpp:574-580 | The gradient is zero exactly at the centre |
| LevelSets.EllipticLevelSet.GradientIsDerivative | src/core/core_bits/level_set.hpp:747-761 | f(p + t v) = f(p) + t (grad f(p) . v) + t^2 (rb^2 vx^2 + ra^2 vy^2) |
| LevelSets.EllipticLevelSet.ZeroAtAxisEnds | src/core/core_bits/level_set.hpp:747-752 | 0 at (alpha +- ra, beta) and (alpha, beta +- rb) |
| LevelSets.EllipticLevelSet.Value | src/core/core_bits/level_set.hpp:747-753 | The value is at least -ra^2 rb^2, which it takes at the centre |
| LevelSets.EllipticLevelSet.Gradient | src/core/core_bits/level_set.hpp:755-761 | The gradient is zero at the centre |
| LevelSets.CouetteLevelSet.OuterExpansion | src/core/core_bits/level_set.hpp:792-818 | The outer branch's gradient is the exact derivative of the outer value |
| LevelSets.CouetteLevelSet.InnerExpansion | src/core/core_bits/level_set.hpp:790-812 | The inner branch's gradient is the exact derivative of the negated quadric, i.e. minus the inner value's derivative |
| LevelSets.CouetteLevelSet.GradientIsDerivative | src/core/core_bits/level_set.hpp:783-820 | Branch by x^2 + y^2 < 1/4, independent of alpha and beta. Outer: the gradient is the derivative. Inner: the gradient is the negated derivative. |
| LevelSets.CouetteLevelSet.Value | src/core/core_bits/level_set.hpp:783-799 | In the inner branch the value is 0 on the circle of radius ra about (alpha, beta), in the outer branch on the circle of radius rb |
| LevelSets.CouetteLevelSet.Gradient | src/core/core_bits/level_set.hpp:801-820 | The gradient is zero at (alpha, beta), in either branch |
| LevelSets.LineLevelSet.GradientIsDerivative | src/core/core_bits/level_set.hpp:913-927 | The value is exactly linear with gradient (0,1), independent of x, and 0 exactly on y = cut_y |
| LevelSets.LineLevelSet.Value | src/core/core_bits/level_set.hpp:913-919 | The value is negative below y = cut_y and positive above it |
| LevelSets.LineLevelSet.Gradient | src/core/core_bits/level_set.hpp:921-927 | The gradient is the unit normal (0, 1) of the line, pointing to increasing y |

## Left out

- Floating point. Coordinates are exact reals. For degrees above 4, the default branch of `reference_nodes_ordered_01` is modelled with exact steps 1/d, giving exactly d+1 nodes. In `double` the accumulated `a1` can round and add or lose a node.
- The `sqrt` constants of `face_basis`, namely `coeff = sqrt(h/2)` and the per-entry roots. They are inputs pinned by their squares, because Dafny has no square root.
- L² orthonormality of the face basis. It needs integration. The model proves instead that each entry is a positive multiple of a Legendre polynomial, with the squared multiples (2i+1)/2.
- `size_t` overflow in `basis_size`. Combinatorics.BasisSize requires the running product to stay below 2^64 and does not model wrap-around.
- The `double` size computations of the triangle Lagrange constructor and static size. They are modelled as the exact natural (d+1)(d+2)/2.
- The `POWER_CACHE` path of `cell_basis`. It is disabled and is only a memo of the same powers.
- The mesh queries `barycenter`, `diameter` and `points`. They are not part of this model; their results are constructor parameters, with diameter > 0.
- The message printed by `eval_double_derivative_1d` for degree > 4. The zeros it returns are modelled; the printing is I/O.
- `level_set::normal`, and every `ret/ret.norm()` normalisation in `rotated_square::gradient`. LevelSets.RotatedSquare.Gradient returns the direction before normalisation, (+-1/2, +-1/2).
- The unused `eps` of `rotated_square::gradient`, and its `side == 0` message. The side is initialised to 1, so the message can never print.
- `m_shaped_level_set::gradient` and `gradient2`. They depend on normalisation and debug output.
- LevelSets.MShaped.RoofEnds: requires a != 0.5 (equivalently b != 0.5). At a = 0.5 the roof slopes are IEEE infinities, which exact reals cannot represent; the field itself is total, and at a = 0.5 the model proves the inside test false and the field non-negative everywhere (DegenerateBox), because the box test x > a && x < b fails before the roof lines are consulted.
- LevelSets.LineLevelSet: in the code every member is private, so nothing outside the class can construct or call it; the model exposes the formulas.
- The level sets built on `sqrt` or transcendental functions: the signed-distance circle and ellipse variants, `circle_distance_ls`, `elliptic_distance_ls`, the `_new` variants and both flower fields.
- `projected_level_set`, the commented-out bases (`reference_nodes`, `equidistriduted_nodes`, `cell_basis_Lagrangian`) and the `#if 0` trial/test block. They are not part of this model.
- The gradients of the triangle Lagrange basis are stated as formal derivatives of coefficient tables. The tables are a reference added here, not taken from the source; each closed form is proved equal to its table.
- LevelSets.CircleLevelSet.ValueAtCentreAndAxes: states the sign at the centre and the zeros on the axes, not the full sign pattern. The value is, by its definition, the squared distance minus r^2.

Notes on the code's behaviour:

- The square level set is -0.5 at the centre of the unit square: the value is `-in * min(...)` with `in = 1` inside (UnitSquareSamples).
- At (-1, 0.5), outside the unit square, the value is +0.5: with `in = -1` the value is `+min(...)`, and the nearest line is y = 0 (or y = 1) at distance 0.5 (UnitSquareSamples).
- The triangle node tables switch on degree+1 in 2..5, so they exist for degrees 1 to 4 (TriangleNodes).
- The interval nodes switch on degree+1 in 1..5, so degree 0 gives the single node 0.5; the generic branch is used only beyond degree 4 (IntervalNodes).
