/**
 * The Lagrange basis on the reference triangle (`cell_basis_triangle_Lagrange`):
 * for degrees 1 to 4 the basis functions and their gradients are closed-form
 * polynomials in the reference coordinates (xi, eta), one expression per
 * entry; any other degree stops the program.
 *
 * Two properties are proved about the closed forms: basis function k is 1 at
 * reference node k and 0 at the other nodes, and each gradient row is the
 * derivative of its basis function. For the second, every closed form is
 * shown equal to a polynomial of the Quartics module (the tables ExpansionN),
 * whose formal derivatives are then the returned gradient rows.
 */
module TriangleLagrange {
  import opened Common
  import opened Power
  import opened CellBases
  import opened ReferenceNodes
  import opened Quartics

  /** Entry k of `eval_basis` for degree 1, at (xi, eta). */
  function Degree1Value(k: nat, xi: real, eta: real): real
    requires k < 3
  {
    match k
    case 0 => 1.0 - eta - xi
    case 1 => xi
    case _ => eta
  }

  /** Row k of `eval_gradients` for degree 1: (d/dxi, d/deta) at (xi, eta). */
  function Degree1Gradient(k: nat, xi: real, eta: real): Vec2
    requires k < 3
  {
    match k
    case 0 => Vec2(-1.0,
                   -1.0)
    case 1 => Vec2(1.0,
                   0.0)
    case _ => Vec2(0.0,
                   1.0)
  }

  /** Entry k of `eval_basis` for degree 2, at (xi, eta). */
  function Degree2Value(k: nat, xi: real, eta: real): real
    requires k < 6
  {
    match k
    case 0 => (-1.0 + eta + xi) * (-1.0 + 2.0 * eta + 2.0 * xi)
    case 1 => xi * (-1.0 + 2.0 * xi)
    case 2 => eta * (-1.0 + 2.0 * eta)
    case 3 => -4.0 * xi * (-1.0 + eta + xi)
    case 4 => 4.0 * eta * xi
    case _ => -4.0 * eta * (-1.0 + eta + xi)
  }

  /** Row k of `eval_gradients` for degree 2: (d/dxi, d/deta) at (xi, eta). */
  function Degree2Gradient(k: nat, xi: real, eta: real): Vec2
    requires k < 6
  {
    match k
    case 0 => Vec2(-3.0 + 4.0 * eta + 4.0 * xi,
                   -3.0 + 4.0 * eta + 4.0 * xi)
    case 1 => Vec2(-1.0 + 4.0 * xi,
                   0.0)
    case 2 => Vec2(0.0,
                   -1.0 + 4.0 * eta)
    case 3 => Vec2(-4.0 * (-1.0 + eta + 2.0 * xi),
                   -4.0 * xi)
    case 4 => Vec2(4.0 * eta,
                   4.0 * xi)
    case _ => Vec2(-4.0 * eta,
                   -4.0 * (-1.0 + 2.0 * eta + xi))
  }

  /** Entry k of `eval_basis` for degree 3, at (xi, eta). */
  function Degree3Value(k: nat, xi: real, eta: real): real
    requires k < 10
  {
    match k
    case 0 => -(1.0 / 2.0) * (-1.0 + eta + xi) * (-2.0 + 3.0 * eta + 3.0 * xi) * (-1.0 + 3.0 * eta + 3.0 * xi)
    case 1 => 1.0 / 2.0 * xi * (-2.0 + 3.0 * xi) * (-1.0 + 3.0 * xi)
    case 2 => 1.0 / 2.0 * eta * (-2.0 + 3.0 * eta) * (-1.0 + 3.0 * eta)
    case 3 => 9.0 / 2.0 * xi * (-1.0 + eta + xi) * (-2.0 + 3.0 * eta + 3.0 * xi)
    case 4 => -9.0 / 2.0 * xi * (-1.0 + eta + xi) * (-1.0 + 3.0 * xi)
    case 5 => 9.0 / 2.0 * eta * xi * (-1.0 + 3.0 * xi)
    case 6 => 9.0 / 2.0 * eta * (-1.0 + 3.0 * eta) * xi
    case 7 => -9.0 / 2.0 * eta * (-1.0 + 3.0 * eta) * (-1.0 + eta + xi)
    case 8 => 9.0 / 2.0 * eta * (-1.0 + eta + xi) * (-2.0 + 3.0 * eta + 3.0 * xi)
    case _ => -27.0 * eta * xi * (-1.0 + eta + xi)
  }

  /** Row k of `eval_gradients` for degree 3: (d/dxi, d/deta) at (xi, eta). */
  function Degree3Gradient(k: nat, xi: real, eta: real): Vec2
    requires k < 10
  {
    match k
    case 0 => Vec2((1.0 / 2.0) * (-11.0 + 36.0 * xi - 9.0 * (eta * (-4.0 + 3.0 * eta) + 6.0 * eta * xi + 3.0 * xi * xi)),
                   (1.0 / 2.0) * (-11.0 + 36.0 * xi - 9.0 * (eta * (-4.0 + 3.0 * eta) + 6.0 * eta * xi + 3.0 * xi * xi)))
    case 1 => Vec2(1.0 + 9.0 / 2.0 * xi * (-2.0 + 3.0 * xi),
                   0.0)
    case 2 => Vec2(0.0,
                   1.0 + 9.0 / 2.0 * eta * (-2.0 + 3.0 * eta))
    case 3 => Vec2(9.0 / 2.0 * (2.0 + 3.0 * eta * eta + xi * (-10.0 + 9.0 * xi) + eta * (-5.0 + 12.0 * xi)),
                   9.0 / 2.0 * xi * (-5.0 + 6.0 * eta + 6.0 * xi))
    case 4 => Vec2(-9.0 / 2.0 * (1.0 + eta * (-1.0 + 6.0 * xi) + xi * (-8.0 + 9.0 * xi)),
                   9.0 / 2.0 * xi * (1.0 - 3.0 * xi))
    case 5 => Vec2(9.0 / 2.0 * eta * (-1.0 + 6.0 * xi),
                   9.0 / 2.0 * xi * (-1.0 + 3.0 * xi))
    case 6 => Vec2(9.0 / 2.0 * eta * (-1.0 + 3.0 * eta),
                   9.0 / 2.0 * xi * (-1.0 + 6.0 * eta))
    case 7 => Vec2(9.0 / 2.0 * eta * (1.0 - 3.0 * eta),
                   -9.0 / 2.0 * (1.0 - xi + eta * (-8.0 + 9.0 * eta + 6.0 * xi)))
    case 8 => Vec2(9.0 / 2.0 * eta * (-5.0 + 6.0 * eta + 6.0 * xi),
                   9.0 / 2.0 * (2.0 + 9.0 * eta * eta - 5.0 * xi + 3.0 * xi * xi + 2.0 * eta * (-5.0 + 6.0 * xi)))
    case _ => Vec2(-27.0 * eta * (-1.0 + eta + 2.0 * xi),
                   -27.0 * xi * (-1.0 + 2.0 * eta + xi))
  }

  /** Entry k of `eval_basis` for degree 4, at (xi, eta). */
  function Degree4Value(k: nat, xi: real, eta: real): real
    requires k < 15
  {
    match k
    case 0 => 1.0 / 3.0 * (-1.0 + eta + xi) * (-1.0 + 2.0 * eta + 2.0 * xi) * (-3.0 + 4.0 * eta + 4.0 * xi) * (-1.0 + 4.0 * eta + 4.0 * xi)
    case 1 => 1.0 / 3.0 * xi * (-1.0 + 2.0 * xi) * (-3.0 + 4.0 * xi) * (-1.0 + 4.0 * xi)
    case 2 => 1.0 / 3.0 * eta * (-1.0 + 2.0 * eta) * (-3.0 + 4.0 * eta) * (-1.0 + 4.0 * eta)
    case 3 => -(16.0 / 3.0) * xi * (-1.0 + eta + xi) * (-1.0 + 2.0 * eta + 2.0 * xi) * (-3.0 + 4.0 * eta + 4.0 * xi)
    case 4 => 4.0 * xi * (-1.0 + eta + xi) * (-1.0 + 4.0 * xi) * (-3.0 + 4.0 * eta + 4.0 * xi)
    case 5 => -(16.0 / 3.0) * xi * (-1.0 + eta + xi) * (-1.0 + 2.0 * xi) * (-1.0 + 4.0 * xi)
    case 6 => (16.0 / 3.0) * eta * xi * (-1.0 + 2.0 * xi) * (-1.0 + 4.0 * xi)
    case 7 => 4.0 * eta * (-1.0 + 4.0 * eta) * xi * (-1.0 + 4.0 * xi)
    case 8 => (16.0 / 3.0) * eta * (-1.0 + 2.0 * eta) * (-1.0 + 4.0 * eta) * xi
    case 9 => -(16.0 / 3.0) * eta * (-1.0 + 2.0 * eta) * (-1.0 + 4.0 * eta) * (-1.0 + eta + xi)
    case 10 => 4.0 * eta * (-1.0 + 4.0 * eta) * (-1.0 + eta + xi) * (-3.0 + 4.0 * eta + 4.0 * xi)
    case 11 => -(16.0 / 3.0) * eta * (-1.0 + eta + xi) * (-1.0 + 2.0 * eta + 2.0 * xi) * (-3.0 + 4.0 * eta + 4.0 * xi)
    case 12 => 32.0 * eta * xi * (-1.0 + eta + xi) * (-3.0 + 4.0 * eta + 4.0 * xi)
    case 13 => -32.0 * eta * xi * (-1.0 + eta + xi) * (-1.0 + 4.0 * xi)
    case _ => -32.0 * eta * (-1.0 + 4.0 * eta) * xi * (-1.0 + eta + xi)
  }

  /** Row k of `eval_gradients` for degree 4: (d/dxi, d/deta) at (xi, eta). */
  function Degree4Gradient(k: nat, xi: real, eta: real): Vec2
    requires k < 15
  {
    match k
    case 0 => Vec2(1.0 / 3.0 * (-5.0 + 8.0 * eta + 8.0 * xi) * (5.0 + 16.0 * eta * eta + 4.0 * xi * (-5.0 + 4.0 * xi) + 4.0 * eta * (-5.0 + 8.0 * xi)),
                   1.0 / 3.0 * (-5.0 + 8.0 * eta + 8.0 * xi) * (5.0 + 16.0 * eta * eta + 4.0 * xi * (-5.0 + 4.0 * xi) + 4.0 * eta * (-5.0 + 8.0 * xi)))
    case 1 => Vec2(1.0 / 3.0 * (-3.0 + 8.0 * xi) * (1.0 + 4.0 * xi * (-3.0 + 4.0 * xi)),
                   0.0)
    case 2 => Vec2(0.0,
                   1.0 / 3.0 * (-3.0 + 8.0 * eta) * (1.0 + 4.0 * eta * (-3.0 + 4.0 * eta)))
    case 3 => Vec2(-(16.0 / 3.0) * (-3.0 + 8.0 * (eta * eta * eta) + 6.0 * (eta * eta) * (-3.0 + 8.0 * xi) + eta * (13.0 + 72.0 * (-1.0 + xi) * xi) + 2.0 * xi * (13.0 + xi * (-27.0 + 16.0 * xi))),
                   -(16.0 / 3.0) * xi * (13.0 + 24.0 * (eta * eta) + 12.0 * xi * (-3.0 + 2.0 * xi) + 12.0 * eta * (-3.0 + 4.0 * xi)))
    case 4 => Vec2(4.0 * (-1.0 + eta + 2.0 * xi) * (3.0 + 32.0 * (-1.0 + xi) * xi + 4.0 * eta * (-1.0 + 8.0 * xi)),
                   4.0 * xi * (-1.0 + 4.0 * xi) * (-7.0 + 8.0 * eta + 8.0 * xi))
    case 5 => Vec2(-(16.0 / 3.0) * (-1.0 + eta + 12.0 * eta * xi * (-1.0 + 2.0 * xi) + 2.0 * xi * (7.0 + xi * (-21.0 + 16.0 * xi))),
                   -(16.0 / 3.0) * xi * (1.0 - 6.0 * xi + 8.0 * (xi * xi)))
    case 6 => Vec2((16.0 / 3.0) * eta * (1.0 + 12.0 * xi * (-1.0 + 2.0 * xi)),
                   (16.0 / 3.0) * xi * (1.0 - 6.0 * xi + 8.0 * (xi * xi)))
    case 7 => Vec2(4.0 * eta * (-1.0 + 4.0 * eta) * (-1.0 + 8.0 * xi),
                   4.0 * (-1.0 + 8.0 * eta) * xi * (-1.0 + 4.0 * xi))
    case 8 => Vec2((16.0 / 3.0) * eta * (1.0 - 6.0 * eta + 8.0 * eta * eta),
                   (16.0 / 3.0) * (1.0 + 12.0 * eta * (-1.0 + 2.0 * eta)) * xi)
    case 9 => Vec2(-(16.0 / 3.0) * eta * (1.0 - 6.0 * eta + 8.0 * eta * eta),
                   -(16.0 / 3.0) * (-1.0 + xi + 2.0 * eta * (7.0 - 6.0 * xi + eta * (-21.0 + 16.0 * eta + 12.0 * xi))))
    case 10 => Vec2(4.0 * eta * (-1.0 + 4.0 * eta) * (-7.0 + 8.0 * eta + 8.0 * xi),
                   4.0 * (-1.0 + 2.0 * eta + xi) * (3.0 - 4.0 * xi + 32.0 * eta * (-1.0 + eta + xi)))
    case 11 => Vec2(-(16.0 / 3.0) * eta * (13.0 + 24.0 * (eta * eta) + 12.0 * xi * (-3.0 + 2.0 * xi) + 12.0 * eta * (-3.0 + 4.0 * xi)),
                   -(16.0 / 3.0) * (-3.0 + 2.0 * eta * (13.0 + eta * (-27.0 + 16.0 * eta)) + 13.0 * xi + 72.0 * (-1.0 + eta) * eta * xi + 6.0 * (-3.0 + 8.0 * eta) * (xi * xi) + 8.0 * (xi * xi * xi)))
    case 12 => Vec2(32.0 * eta * (3.0 + 4.0 * eta * eta + 2.0 * xi * (-7.0 + 6.0 * xi) + eta * (-7.0 + 16.0 * xi)),
                   32.0 * xi * (3.0 + 2.0 * eta * (-7.0 + 6.0 * eta) - 7.0 * xi + 16.0 * eta * xi + 4.0 * (xi * xi)))
    case 13 => Vec2(-32.0 * eta * (1.0 + 2.0 * xi * (-5.0 + 6.0 * xi) + eta * (-1.0 + 8.0 * xi)),
                   -32.0 * xi * (-1.0 + 2.0 * eta + xi) * (-1.0 + 4.0 * xi))
    case _ => Vec2(-32.0 * eta * (-1.0 + 4.0 * eta) * (-1.0 + eta + 2.0 * xi),
                   -32.0 * xi * (1.0 - xi + 2.0 * eta * (-5.0 + 6.0 * eta + 4.0 * xi)))
  }

  const Expansion1: seq<Coeffs> :=
    [ Coeffs(1.0, -1.0, -1.0, 0.0, 0.0, 0.0, 0.0, 0.0, 0.0, 0.0, 0.0, 0.0, 0.0, 0.0, 0.0),
      Coeffs(0.0, 1.0, 0.0, 0.0, 0.0, 0.0, 0.0, 0.0, 0.0, 0.0, 0.0, 0.0, 0.0, 0.0, 0.0),
      Coeffs(0.0, 0.0, 1.0, 0.0, 0.0, 0.0, 0.0, 0.0, 0.0, 0.0, 0.0, 0.0, 0.0, 0.0, 0.0) ]

  const Expansion2: seq<Coeffs> :=
    [ Coeffs(1.0, -3.0, -3.0, 2.0, 4.0, 2.0, 0.0, 0.0, 0.0, 0.0, 0.0, 0.0, 0.0, 0.0, 0.0),
      Coeffs(0.0, -1.0, 0.0, 2.0, 0.0, 0.0, 0.0, 0.0, 0.0, 0.0, 0.0, 0.0, 0.0, 0.0, 0.0),
      Coeffs(0.0, 0.0, -1.0, 0.0, 0.0, 2.0, 0.0, 0.0, 0.0, 0.0, 0.0, 0.0, 0.0, 0.0, 0.0),
      Coeffs(0.0, 4.0, 0.0, -4.0, -4.0, 0.0, 0.0, 0.0, 0.0, 0.0, 0.0, 0.0, 0.0, 0.0, 0.0),
      Coeffs(0.0, 0.0, 0.0, 0.0, 4.0, 0.0, 0.0, 0.0, 0.0, 0.0, 0.0, 0.0, 0.0, 0.0, 0.0),
      Coeffs(0.0, 0.0, 4.0, 0.0, -4.0, -4.0, 0.0, 0.0, 0.0, 0.0, 0.0, 0.0, 0.0, 0.0, 0.0) ]

  const Expansion3: seq<Coeffs> :=
    [ Coeffs(1.0, -(11.0 / 2.0), -(11.0 / 2.0), 9.0, 18.0, 9.0, -(9.0 / 2.0), -(27.0 / 2.0), -(27.0 / 2.0), -(9.0 / 2.0), 0.0, 0.0, 0.0, 0.0, 0.0),
      Coeffs(0.0, 1.0, 0.0, -(9.0 / 2.0), 0.0, 0.0, 9.0 / 2.0, 0.0, 0.0, 0.0, 0.0, 0.0, 0.0, 0.0, 0.0),
      Coeffs(0.0, 0.0, 1.0, 0.0, 0.0, -(9.0 / 2.0), 0.0, 0.0, 0.0, 9.0 / 2.0, 0.0, 0.0, 0.0, 0.0, 0.0),
      Coeffs(0.0, 9.0, 0.0, -(45.0 / 2.0), -(45.0 / 2.0), 0.0, 27.0 / 2.0, 27.0, 27.0 / 2.0, 0.0, 0.0, 0.0, 0.0, 0.0, 0.0),
      Coeffs(0.0, -(9.0 / 2.0), 0.0, 18.0, 9.0 / 2.0, 0.0, -(27.0 / 2.0), -(27.0 / 2.0), 0.0, 0.0, 0.0, 0.0, 0.0, 0.0, 0.0),
      Coeffs(0.0, 0.0, 0.0, 0.0, -(9.0 / 2.0), 0.0, 0.0, 27.0 / 2.0, 0.0, 0.0, 0.0, 0.0, 0.0, 0.0, 0.0),
      Coeffs(0.0, 0.0, 0.0, 0.0, -(9.0 / 2.0), 0.0, 0.0, 0.0, 27.0 / 2.0, 0.0, 0.0, 0.0, 0.0, 0.0, 0.0),
      Coeffs(0.0, 0.0, -(9.0 / 2.0), 0.0, 9.0 / 2.0, 18.0, 0.0, 0.0, -(27.0 / 2.0), -(27.0 / 2.0), 0.0, 0.0, 0.0, 0.0, 0.0),
      Coeffs(0.0, 0.0, 9.0, 0.0, -(45.0 / 2.0), -(45.0 / 2.0), 0.0, 27.0 / 2.0, 27.0, 27.0 / 2.0, 0.0, 0.0, 0.0, 0.0, 0.0),
      Coeffs(0.0, 0.0, 0.0, 0.0, 27.0, 0.0, 0.0, -27.0, -27.0, 0.0, 0.0, 0.0, 0.0, 0.0, 0.0) ]

  const Expansion4: seq<Coeffs> :=
    [ Coeffs(1.0, -(25.0 / 3.0), -(25.0 / 3.0), 70.0 / 3.0, 140.0 / 3.0, 70.0 / 3.0, -(80.0 / 3.0), -80.0, -80.0, -(80.0 / 3.0), 32.0 / 3.0, 128.0 / 3.0, 64.0, 128.0 / 3.0, 32.0 / 3.0),
      Coeffs(0.0, -1.0, 0.0, 22.0 / 3.0, 0.0, 0.0, -16.0, 0.0, 0.0, 0.0, 32.0 / 3.0, 0.0, 0.0, 0.0, 0.0),
      Coeffs(0.0, 0.0, -1.0, 0.0, 0.0, 22.0 / 3.0, 0.0, 0.0, 0.0, -16.0, 0.0, 0.0, 0.0, 0.0, 32.0 / 3.0),
      Coeffs(0.0, 16.0, 0.0, -(208.0 / 3.0), -(208.0 / 3.0), 0.0, 96.0, 192.0, 96.0, 0.0, -(128.0 / 3.0), -128.0, -128.0, -(128.0 / 3.0), 0.0),
      Coeffs(0.0, -12.0, 0.0, 76.0, 28.0, 0.0, -128.0, -144.0, -16.0, 0.0, 64.0, 128.0, 64.0, 0.0, 0.0),
      Coeffs(0.0, 16.0 / 3.0, 0.0, -(112.0 / 3.0), -(16.0 / 3.0), 0.0, 224.0 / 3.0, 32.0, 0.0, 0.0, -(128.0 / 3.0), -(128.0 / 3.0), 0.0, 0.0, 0.0),
      Coeffs(0.0, 0.0, 0.0, 0.0, 16.0 / 3.0, 0.0, 0.0, -32.0, 0.0, 0.0, 0.0, 128.0 / 3.0, 0.0, 0.0, 0.0),
      Coeffs(0.0, 0.0, 0.0, 0.0, 4.0, 0.0, 0.0, -16.0, -16.0, 0.0, 0.0, 0.0, 64.0, 0.0, 0.0),
      Coeffs(0.0, 0.0, 0.0, 0.0, 16.0 / 3.0, 0.0, 0.0, 0.0, -32.0, 0.0, 0.0, 0.0, 0.0, 128.0 / 3.0, 0.0),
      Coeffs(0.0, 0.0, 16.0 / 3.0, 0.0, -(16.0 / 3.0), -(112.0 / 3.0), 0.0, 0.0, 32.0, 224.0 / 3.0, 0.0, 0.0, 0.0, -(128.0 / 3.0), -(128.0 / 3.0)),
      Coeffs(0.0, 0.0, -12.0, 0.0, 28.0, 76.0, 0.0, -16.0, -144.0, -128.0, 0.0, 0.0, 64.0, 128.0, 64.0),
      Coeffs(0.0, 0.0, 16.0, 0.0, -(208.0 / 3.0), -(208.0 / 3.0), 0.0, 96.0, 192.0, 96.0, 0.0, -(128.0 / 3.0), -128.0, -128.0, -(128.0 / 3.0)),
      Coeffs(0.0, 0.0, 0.0, 0.0, 96.0, 0.0, 0.0, -224.0, -224.0, 0.0, 0.0, 128.0, 256.0, 128.0, 0.0),
      Coeffs(0.0, 0.0, 0.0, 0.0, -32.0, 0.0, 0.0, 160.0, 32.0, 0.0, 0.0, -128.0, -128.0, 0.0, 0.0),
      Coeffs(0.0, 0.0, 0.0, 0.0, -32.0, 0.0, 0.0, 32.0, 160.0, 0.0, 0.0, 0.0, -128.0, -128.0, 0.0) ]

  lemma Degree1ValueEntry0(xi: real, eta: real)
    ensures Degree1Value(0, xi, eta) == Eval(Expansion1[0], xi, eta)
  {
  }

  lemma Degree1GradientEntry0(xi: real, eta: real)
    ensures Degree1Gradient(0, xi, eta) == Vec2(Eval(DX(Expansion1[0]), xi, eta), Eval(DY(Expansion1[0]), xi, eta))
  {
  }

  lemma Degree1ValueEntry1(xi: real, eta: real)
    ensures Degree1Value(1, xi, eta) == Eval(Expansion1[1], xi, eta)
  {
  }

  lemma Degree1GradientEntry1(xi: real, eta: real)
    ensures Degree1Gradient(1, xi, eta) == Vec2(Eval(DX(Expansion1[1]), xi, eta), Eval(DY(Expansion1[1]), xi, eta))
  {
  }

  lemma Degree1ValueEntry2(xi: real, eta: real)
    ensures Degree1Value(2, xi, eta) == Eval(Expansion1[2], xi, eta)
  {
  }

  lemma Degree1GradientEntry2(xi: real, eta: real)
    ensures Degree1Gradient(2, xi, eta) == Vec2(Eval(DX(Expansion1[2]), xi, eta), Eval(DY(Expansion1[2]), xi, eta))
  {
  }

  /** The degree-1 closed forms are the polynomials Expansion1, and their gradients the formal derivatives. */
  lemma Degree1Expanded(k: nat, xi: real, eta: real)
    requires k < 3
    ensures Degree1Value(k, xi, eta) == Eval(Expansion1[k], xi, eta)
    ensures Degree1Gradient(k, xi, eta) == Vec2(Eval(DX(Expansion1[k]), xi, eta), Eval(DY(Expansion1[k]), xi, eta))
  {
    if k == 0 {
      Degree1ValueEntry0(xi, eta);
      Degree1GradientEntry0(xi, eta);
    } else if k == 1 {
      Degree1ValueEntry1(xi, eta);
      Degree1GradientEntry1(xi, eta);
    } else {
      Degree1ValueEntry2(xi, eta);
      Degree1GradientEntry2(xi, eta);
    }
  }

  lemma Degree2ValueEntry0(xi: real, eta: real)
    ensures Degree2Value(0, xi, eta) == Eval(Expansion2[0], xi, eta)
  {
  }

  lemma Degree2GradientEntry0(xi: real, eta: real)
    ensures Degree2Gradient(0, xi, eta) == Vec2(Eval(DX(Expansion2[0]), xi, eta), Eval(DY(Expansion2[0]), xi, eta))
  {
  }

  lemma Degree2ValueEntry1(xi: real, eta: real)
    ensures Degree2Value(1, xi, eta) == Eval(Expansion2[1], xi, eta)
  {
  }

  lemma Degree2GradientEntry1(xi: real, eta: real)
    ensures Degree2Gradient(1, xi, eta) == Vec2(Eval(DX(Expansion2[1]), xi, eta), Eval(DY(Expansion2[1]), xi, eta))
  {
  }

  lemma Degree2ValueEntry2(xi: real, eta: real)
    ensures Degree2Value(2, xi, eta) == Eval(Expansion2[2], xi, eta)
  {
  }

  lemma Degree2GradientEntry2(xi: real, eta: real)
    ensures Degree2Gradient(2, xi, eta) == Vec2(Eval(DX(Expansion2[2]), xi, eta), Eval(DY(Expansion2[2]), xi, eta))
  {
  }

  lemma Degree2ValueEntry3(xi: real, eta: real)
    ensures Degree2Value(3, xi, eta) == Eval(Expansion2[3], xi, eta)
  {
  }

  lemma Degree2GradientEntry3(xi: real, eta: real)
    ensures Degree2Gradient(3, xi, eta) == Vec2(Eval(DX(Expansion2[3]), xi, eta), Eval(DY(Expansion2[3]), xi, eta))
  {
  }

  lemma Degree2ValueEntry4(xi: real, eta: real)
    ensures Degree2Value(4, xi, eta) == Eval(Expansion2[4], xi, eta)
  {
  }

  lemma Degree2GradientEntry4(xi: real, eta: real)
    ensures Degree2Gradient(4, xi, eta) == Vec2(Eval(DX(Expansion2[4]), xi, eta), Eval(DY(Expansion2[4]), xi, eta))
  {
  }

  lemma Degree2ValueEntry5(xi: real, eta: real)
    ensures Degree2Value(5, xi, eta) == Eval(Expansion2[5], xi, eta)
  {
  }

  lemma Degree2GradientEntry5(xi: real, eta: real)
    ensures Degree2Gradient(5, xi, eta) == Vec2(Eval(DX(Expansion2[5]), xi, eta), Eval(DY(Expansion2[5]), xi, eta))
  {
  }

  /** The degree-2 closed forms are the polynomials Expansion2, and their gradients the formal derivatives. */
  lemma Degree2Expanded(k: nat, xi: real, eta: real)
    requires k < 6
    ensures Degree2Value(k, xi, eta) == Eval(Expansion2[k], xi, eta)
    ensures Degree2Gradient(k, xi, eta) == Vec2(Eval(DX(Expansion2[k]), xi, eta), Eval(DY(Expansion2[k]), xi, eta))
  {
    if k == 0 {
      Degree2ValueEntry0(xi, eta);
      Degree2GradientEntry0(xi, eta);
    } else if k == 1 {
      Degree2ValueEntry1(xi, eta);
      Degree2GradientEntry1(xi, eta);
    } else if k == 2 {
      Degree2ValueEntry2(xi, eta);
      Degree2GradientEntry2(xi, eta);
    } else if k == 3 {
      Degree2ValueEntry3(xi, eta);
      Degree2GradientEntry3(xi, eta);
    } else if k == 4 {
      Degree2ValueEntry4(xi, eta);
      Degree2GradientEntry4(xi, eta);
    } else {
      Degree2ValueEntry5(xi, eta);
      Degree2GradientEntry5(xi, eta);
    }
  }

  lemma Degree3ValueEntry0(xi: real, eta: real)
    ensures Degree3Value(0, xi, eta) == Eval(Expansion3[0], xi, eta)
  {
  }

  lemma Degree3GradientEntry0(xi: real, eta: real)
    ensures Degree3Gradient(0, xi, eta) == Vec2(Eval(DX(Expansion3[0]), xi, eta), Eval(DY(Expansion3[0]), xi, eta))
  {
  }

  lemma Degree3ValueEntry1(xi: real, eta: real)
    ensures Degree3Value(1, xi, eta) == Eval(Expansion3[1], xi, eta)
  {
  }

  lemma Degree3GradientEntry1(xi: real, eta: real)
    ensures Degree3Gradient(1, xi, eta) == Vec2(Eval(DX(Expansion3[1]), xi, eta), Eval(DY(Expansion3[1]), xi, eta))
  {
  }

  lemma Degree3ValueEntry2(xi: real, eta: real)
    ensures Degree3Value(2, xi, eta) == Eval(Expansion3[2], xi, eta)
  {
  }

  lemma Degree3GradientEntry2(xi: real, eta: real)
    ensures Degree3Gradient(2, xi, eta) == Vec2(Eval(DX(Expansion3[2]), xi, eta), Eval(DY(Expansion3[2]), xi, eta))
  {
  }

  lemma Degree3ValueEntry3(xi: real, eta: real)
    ensures Degree3Value(3, xi, eta) == Eval(Expansion3[3], xi, eta)
  {
  }

  lemma Degree3GradientEntry3(xi: real, eta: real)
    ensures Degree3Gradient(3, xi, eta) == Vec2(Eval(DX(Expansion3[3]), xi, eta), Eval(DY(Expansion3[3]), xi, eta))
  {
  }

  lemma Degree3ValueEntry4(xi: real, eta: real)
    ensures Degree3Value(4, xi, eta) == Eval(Expansion3[4], xi, eta)
  {
  }

  lemma Degree3GradientEntry4(xi: real, eta: real)
    ensures Degree3Gradient(4, xi, eta) == Vec2(Eval(DX(Expansion3[4]), xi, eta), Eval(DY(Expansion3[4]), xi, eta))
  {
  }

  lemma Degree3ValueEntry5(xi: real, eta: real)
    ensures Degree3Value(5, xi, eta) == Eval(Expansion3[5], xi, eta)
  {
  }

  lemma Degree3GradientEntry5(xi: real, eta: real)
    ensures Degree3Gradient(5, xi, eta) == Vec2(Eval(DX(Expansion3[5]), xi, eta), Eval(DY(Expansion3[5]), xi, eta))
  {
  }

  lemma Degree3ValueEntry6(xi: real, eta: real)
    ensures Degree3Value(6, xi, eta) == Eval(Expansion3[6], xi, eta)
  {
  }

  lemma Degree3GradientEntry6(xi: real, eta: real)
    ensures Degree3Gradient(6, xi, eta) == Vec2(Eval(DX(Expansion3[6]), xi, eta), Eval(DY(Expansion3[6]), xi, eta))
  {
  }

  lemma Degree3ValueEntry7(xi: real, eta: real)
    ensures Degree3Value(7, xi, eta) == Eval(Expansion3[7], xi, eta)
  {
  }

  lemma Degree3GradientEntry7(xi: real, eta: real)
    ensures Degree3Gradient(7, xi, eta) == Vec2(Eval(DX(Expansion3[7]), xi, eta), Eval(DY(Expansion3[7]), xi, eta))
  {
  }

  lemma Degree3ValueEntry8(xi: real, eta: real)
    ensures Degree3Value(8, xi, eta) == Eval(Expansion3[8], xi, eta)
  {
  }

  lemma Degree3GradientEntry8(xi: real, eta: real)
    ensures Degree3Gradient(8, xi, eta) == Vec2(Eval(DX(Expansion3[8]), xi, eta), Eval(DY(Expansion3[8]), xi, eta))
  {
  }

  lemma Degree3ValueEntry9(xi: real, eta: real)
    ensures Degree3Value(9, xi, eta) == Eval(Expansion3[9], xi, eta)
  {
  }

  lemma Degree3GradientEntry9(xi: real, eta: real)
    ensures Degree3Gradient(9, xi, eta) == Vec2(Eval(DX(Expansion3[9]), xi, eta), Eval(DY(Expansion3[9]), xi, eta))
  {
  }

  /** The degree-3 closed forms are the polynomials Expansion3, and their gradients the formal derivatives. */
  lemma Degree3Expanded(k: nat, xi: real, eta: real)
    requires k < 10
    ensures Degree3Value(k, xi, eta) == Eval(Expansion3[k], xi, eta)
    ensures Degree3Gradient(k, xi, eta) == Vec2(Eval(DX(Expansion3[k]), xi, eta), Eval(DY(Expansion3[k]), xi, eta))
  {
    if k == 0 {
      Degree3ValueEntry0(xi, eta);
      Degree3GradientEntry0(xi, eta);
    } else if k == 1 {
      Degree3ValueEntry1(xi, eta);
      Degree3GradientEntry1(xi, eta);
    } else if k == 2 {
      Degree3ValueEntry2(xi, eta);
      Degree3GradientEntry2(xi, eta);
    } else if k == 3 {
      Degree3ValueEntry3(xi, eta);
      Degree3GradientEntry3(xi, eta);
    } else if k == 4 {
      Degree3ValueEntry4(xi, eta);
      Degree3GradientEntry4(xi, eta);
    } else if k == 5 {
      Degree3ValueEntry5(xi, eta);
      Degree3GradientEntry5(xi, eta);
    } else if k == 6 {
      Degree3ValueEntry6(xi, eta);
      Degree3GradientEntry6(xi, eta);
    } else if k == 7 {
      Degree3ValueEntry7(xi, eta);
      Degree3GradientEntry7(xi, eta);
    } else if k == 8 {
      Degree3ValueEntry8(xi, eta);
      Degree3GradientEntry8(xi, eta);
    } else {
      Degree3ValueEntry9(xi, eta);
      Degree3GradientEntry9(xi, eta);
    }
  }

  lemma Degree4ValueEntry0(xi: real, eta: real)
    ensures Degree4Value(0, xi, eta) == Eval(Expansion4[0], xi, eta)
  {
  }

  lemma Degree4GradientEntry0(xi: real, eta: real)
    ensures Degree4Gradient(0, xi, eta) == Vec2(Eval(DX(Expansion4[0]), xi, eta), Eval(DY(Expansion4[0]), xi, eta))
  {
  }

  lemma Degree4ValueEntry1(xi: real, eta: real)
    ensures Degree4Value(1, xi, eta) == Eval(Expansion4[1], xi, eta)
  {
  }

  lemma Degree4GradientEntry1(xi: real, eta: real)
    ensures Degree4Gradient(1, xi, eta) == Vec2(Eval(DX(Expansion4[1]), xi, eta), Eval(DY(Expansion4[1]), xi, eta))
  {
  }

  lemma Degree4ValueEntry2(xi: real, eta: real)
    ensures Degree4Value(2, xi, eta) == Eval(Expansion4[2], xi, eta)
  {
  }

  lemma Degree4GradientEntry2(xi: real, eta: real)
    ensures Degree4Gradient(2, xi, eta) == Vec2(Eval(DX(Expansion4[2]), xi, eta), Eval(DY(Expansion4[2]), xi, eta))
  {
  }

  lemma Degree4ValueEntry3(xi: real, eta: real)
    ensures Degree4Value(3, xi, eta) == Eval(Expansion4[3], xi, eta)
  {
  }

  lemma Degree4GradientEntry3(xi: real, eta: real)
    ensures Degree4Gradient(3, xi, eta) == Vec2(Eval(DX(Expansion4[3]), xi, eta), Eval(DY(Expansion4[3]), xi, eta))
  {
  }

  lemma Degree4ValueEntry4(xi: real, eta: real)
    ensures Degree4Value(4, xi, eta) == Eval(Expansion4[4], xi, eta)
  {
  }

  lemma Degree4GradientEntry4(xi: real, eta: real)
    ensures Degree4Gradient(4, xi, eta) == Vec2(Eval(DX(Expansion4[4]), xi, eta), Eval(DY(Expansion4[4]), xi, eta))
  {
  }

  lemma Degree4ValueEntry5(xi: real, eta: real)
    ensures Degree4Value(5, xi, eta) == Eval(Expansion4[5], xi, eta)
  {
  }

  lemma Degree4GradientEntry5(xi: real, eta: real)
    ensures Degree4Gradient(5, xi, eta) == Vec2(Eval(DX(Expansion4[5]), xi, eta), Eval(DY(Expansion4[5]), xi, eta))
  {
  }

  lemma Degree4ValueEntry6(xi: real, eta: real)
    ensures Degree4Value(6, xi, eta) == Eval(Expansion4[6], xi, eta)
  {
  }

  lemma Degree4GradientEntry6(xi: real, eta: real)
    ensures Degree4Gradient(6, xi, eta) == Vec2(Eval(DX(Expansion4[6]), xi, eta), Eval(DY(Expansion4[6]), xi, eta))
  {
  }

  lemma Degree4ValueEntry7(xi: real, eta: real)
    ensures Degree4Value(7, xi, eta) == Eval(Expansion4[7], xi, eta)
  {
  }

  lemma Degree4GradientEntry7(xi: real, eta: real)
    ensures Degree4Gradient(7, xi, eta) == Vec2(Eval(DX(Expansion4[7]), xi, eta), Eval(DY(Expansion4[7]), xi, eta))
  {
  }

  lemma Degree4ValueEntry8(xi: real, eta: real)
    ensures Degree4Value(8, xi, eta) == Eval(Expansion4[8], xi, eta)
  {
  }

  lemma Degree4GradientEntry8(xi: real, eta: real)
    ensures Degree4Gradient(8, xi, eta) == Vec2(Eval(DX(Expansion4[8]), xi, eta), Eval(DY(Expansion4[8]), xi, eta))
  {
  }

  lemma Degree4ValueEntry9(xi: real, eta: real)
    ensures Degree4Value(9, xi, eta) == Eval(Expansion4[9], xi, eta)
  {
  }

  lemma Degree4GradientEntry9(xi: real, eta: real)
    ensures Degree4Gradient(9, xi, eta) == Vec2(Eval(DX(Expansion4[9]), xi, eta), Eval(DY(Expansion4[9]), xi, eta))
  {
  }

  lemma Degree4ValueEntry10(xi: real, eta: real)
    ensures Degree4Value(10, xi, eta) == Eval(Expansion4[10], xi, eta)
  {
  }

  lemma Degree4GradientEntry10(xi: real, eta: real)
    ensures Degree4Gradient(10, xi, eta) == Vec2(Eval(DX(Expansion4[10]), xi, eta), Eval(DY(Expansion4[10]), xi, eta))
  {
  }

  lemma Degree4ValueEntry11(xi: real, eta: real)
    ensures Degree4Value(11, xi, eta) == Eval(Expansion4[11], xi, eta)
  {
  }

  lemma Degree4GradientEntry11(xi: real, eta: real)
    ensures Degree4Gradient(11, xi, eta) == Vec2(Eval(DX(Expansion4[11]), xi, eta), Eval(DY(Expansion4[11]), xi, eta))
  {
  }

  lemma Degree4ValueEntry12(xi: real, eta: real)
    ensures Degree4Value(12, xi, eta) == Eval(Expansion4[12], xi, eta)
  {
  }

  lemma Degree4GradientEntry12(xi: real, eta: real)
    ensures Degree4Gradient(12, xi, eta) == Vec2(Eval(DX(Expansion4[12]), xi, eta), Eval(DY(Expansion4[12]), xi, eta))
  {
  }

  lemma Degree4ValueEntry13(xi: real, eta: real)
    ensures Degree4Value(13, xi, eta) == Eval(Expansion4[13], xi, eta)
  {
  }

  lemma Degree4GradientEntry13(xi: real, eta: real)
    ensures Degree4Gradient(13, xi, eta) == Vec2(Eval(DX(Expansion4[13]), xi, eta), Eval(DY(Expansion4[13]), xi, eta))
  {
  }

  lemma Degree4ValueEntry14(xi: real, eta: real)
    ensures Degree4Value(14, xi, eta) == Eval(Expansion4[14], xi, eta)
  {
  }

  lemma Degree4GradientEntry14(xi: real, eta: real)
    ensures Degree4Gradient(14, xi, eta) == Vec2(Eval(DX(Expansion4[14]), xi, eta), Eval(DY(Expansion4[14]), xi, eta))
  {
  }

  /** The degree-4 closed forms are the polynomials Expansion4, and their gradients the formal derivatives. */
  lemma Degree4Expanded(k: nat, xi: real, eta: real)
    requires k < 15
    ensures Degree4Value(k, xi, eta) == Eval(Expansion4[k], xi, eta)
    ensures Degree4Gradient(k, xi, eta) == Vec2(Eval(DX(Expansion4[k]), xi, eta), Eval(DY(Expansion4[k]), xi, eta))
  {
    if k == 0 {
      Degree4ValueEntry0(xi, eta);
      Degree4GradientEntry0(xi, eta);
    } else if k == 1 {
      Degree4ValueEntry1(xi, eta);
      Degree4GradientEntry1(xi, eta);
    } else if k == 2 {
      Degree4ValueEntry2(xi, eta);
      Degree4GradientEntry2(xi, eta);
    } else if k == 3 {
      Degree4ValueEntry3(xi, eta);
      Degree4GradientEntry3(xi, eta);
    } else if k == 4 {
      Degree4ValueEntry4(xi, eta);
      Degree4GradientEntry4(xi, eta);
    } else if k == 5 {
      Degree4ValueEntry5(xi, eta);
      Degree4GradientEntry5(xi, eta);
    } else if k == 6 {
      Degree4ValueEntry6(xi, eta);
      Degree4GradientEntry6(xi, eta);
    } else if k == 7 {
      Degree4ValueEntry7(xi, eta);
      Degree4GradientEntry7(xi, eta);
    } else if k == 8 {
      Degree4ValueEntry8(xi, eta);
      Degree4GradientEntry8(xi, eta);
    } else if k == 9 {
      Degree4ValueEntry9(xi, eta);
      Degree4GradientEntry9(xi, eta);
    } else if k == 10 {
      Degree4ValueEntry10(xi, eta);
      Degree4GradientEntry10(xi, eta);
    } else if k == 11 {
      Degree4ValueEntry11(xi, eta);
      Degree4GradientEntry11(xi, eta);
    } else if k == 12 {
      Degree4ValueEntry12(xi, eta);
      Degree4GradientEntry12(xi, eta);
    } else if k == 13 {
      Degree4ValueEntry13(xi, eta);
      Degree4GradientEntry13(xi, eta);
    } else {
      Degree4ValueEntry14(xi, eta);
      Degree4GradientEntry14(xi, eta);
    }
  }

  lemma Degree1AtNode0(k: nat)
    requires k < 3
    ensures Degree1Value(k, 0.0, 0.0) == if k == 0 then 1.0 else 0.0
  {
  }

  lemma Degree1AtNode1(k: nat)
    requires k < 3
    ensures Degree1Value(k, 1.0, 0.0) == if k == 1 then 1.0 else 0.0
  {
  }

  lemma Degree1AtNode2(k: nat)
    requires k < 3
    ensures Degree1Value(k, 0.0, 1.0) == if k == 2 then 1.0 else 0.0
  {
  }

  /** The degree-1 basis function k is 1 at node k of Corners and 0 at the other nodes. */
  lemma Degree1Kronecker(j: nat, k: nat)
    requires j < 3 && k < 3
    ensures Degree1Value(k, Corners[j].x, Corners[j].y) == if j == k then 1.0 else 0.0
  {
    if j == 0 {
      Degree1AtNode0(k);
    } else if j == 1 {
      Degree1AtNode1(k);
    } else {
      Degree1AtNode2(k);
    }
  }

  lemma Degree2AtNode0(k: nat)
    requires k < 6
    ensures Degree2Value(k, 0.0, 0.0) == if k == 0 then 1.0 else 0.0
  {
  }

  lemma Degree2AtNode1(k: nat)
    requires k < 6
    ensures Degree2Value(k, 1.0, 0.0) == if k == 1 then 1.0 else 0.0
  {
  }

  lemma Degree2AtNode2(k: nat)
    requires k < 6
    ensures Degree2Value(k, 0.0, 1.0) == if k == 2 then 1.0 else 0.0
  {
  }

  lemma Degree2AtNode3(k: nat)
    requires k < 6
    ensures Degree2Value(k, 1.0 / 2.0, 0.0) == if k == 3 then 1.0 else 0.0
  {
  }

  lemma Degree2AtNode4(k: nat)
    requires k < 6
    ensures Degree2Value(k, 1.0 / 2.0, 1.0 / 2.0) == if k == 4 then 1.0 else 0.0
  {
  }

  lemma Degree2AtNode5(k: nat)
    requires k < 6
    ensures Degree2Value(k, 0.0, 1.0 / 2.0) == if k == 5 then 1.0 else 0.0
  {
  }

  /** The degree-2 basis function k is 1 at node k of Nodes2 and 0 at the other nodes. */
  lemma Degree2Kronecker(j: nat, k: nat)
    requires j < 6 && k < 6
    ensures Degree2Value(k, Nodes2[j].x, Nodes2[j].y) == if j == k then 1.0 else 0.0
  {
    if j == 0 {
      Degree2AtNode0(k);
    } else if j == 1 {
      Degree2AtNode1(k);
    } else if j == 2 {
      Degree2AtNode2(k);
    } else if j == 3 {
      Degree2AtNode3(k);
    } else if j == 4 {
      Degree2AtNode4(k);
    } else {
      Degree2AtNode5(k);
    }
  }

  lemma Degree3AtNode0(k: nat)
    requires k < 10
    ensures Degree3Value(k, 0.0, 0.0) == if k == 0 then 1.0 else 0.0
  {
  }

  lemma Degree3AtNode1(k: nat)
    requires k < 10
    ensures Degree3Value(k, 1.0, 0.0) == if k == 1 then 1.0 else 0.0
  {
  }

  lemma Degree3AtNode2(k: nat)
    requires k < 10
    ensures Degree3Value(k, 0.0, 1.0) == if k == 2 then 1.0 else 0.0
  {
  }

  lemma Degree3AtNode3(k: nat)
    requires k < 10
    ensures Degree3Value(k, 1.0 / 3.0, 0.0) == if k == 3 then 1.0 else 0.0
  {
  }

  lemma Degree3AtNode4(k: nat)
    requires k < 10
    ensures Degree3Value(k, 2.0 / 3.0, 0.0) == if k == 4 then 1.0 else 0.0
  {
  }

  lemma Degree3AtNode5(k: nat)
    requires k < 10
    ensures Degree3Value(k, 2.0 / 3.0, 1.0 / 3.0) == if k == 5 then 1.0 else 0.0
  {
  }

  lemma Degree3AtNode6(k: nat)
    requires k < 10
    ensures Degree3Value(k, 1.0 / 3.0, 2.0 / 3.0) == if k == 6 then 1.0 else 0.0
  {
  }

  lemma Degree3AtNode7(k: nat)
    requires k < 10
    ensures Degree3Value(k, 0.0, 2.0 / 3.0) == if k == 7 then 1.0 else 0.0
  {
  }

  lemma Degree3AtNode8(k: nat)
    requires k < 10
    ensures Degree3Value(k, 0.0, 1.0 / 3.0) == if k == 8 then 1.0 else 0.0
  {
  }

  lemma Degree3AtNode9(k: nat)
    requires k < 10
    ensures Degree3Value(k, 1.0 / 3.0, 1.0 / 3.0) == if k == 9 then 1.0 else 0.0
  {
  }

  /** The degree-3 basis function k is 1 at node k of Nodes3 and 0 at the other nodes. */
  lemma Degree3Kronecker(j: nat, k: nat)
    requires j < 10 && k < 10
    ensures Degree3Value(k, Nodes3[j].x, Nodes3[j].y) == if j == k then 1.0 else 0.0
  {
    if j == 0 {
      Degree3AtNode0(k);
    } else if j == 1 {
      Degree3AtNode1(k);
    } else if j == 2 {
      Degree3AtNode2(k);
    } else if j == 3 {
      Degree3AtNode3(k);
    } else if j == 4 {
      Degree3AtNode4(k);
    } else if j == 5 {
      Degree3AtNode5(k);
    } else if j == 6 {
      Degree3AtNode6(k);
    } else if j == 7 {
      Degree3AtNode7(k);
    } else if j == 8 {
      Degree3AtNode8(k);
    } else {
      Degree3AtNode9(k);
    }
  }

  lemma Degree4AtNode0(k: nat)
    requires k < 15
    ensures Degree4Value(k, 0.0, 0.0) == if k == 0 then 1.0 else 0.0
  {
  }

  lemma Degree4AtNode1(k: nat)
    requires k < 15
    ensures Degree4Value(k, 1.0, 0.0) == if k == 1 then 1.0 else 0.0
  {
  }

  lemma Degree4AtNode2(k: nat)
    requires k < 15
    ensures Degree4Value(k, 0.0, 1.0) == if k == 2 then 1.0 else 0.0
  {
  }

  lemma Degree4AtNode3(k: nat)
    requires k < 15
    ensures Degree4Value(k, 1.0 / 4.0, 0.0) == if k == 3 then 1.0 else 0.0
  {
  }

  lemma Degree4AtNode4(k: nat)
    requires k < 15
    ensures Degree4Value(k, 1.0 / 2.0, 0.0) == if k == 4 then 1.0 else 0.0
  {
  }

  lemma Degree4AtNode5(k: nat)
    requires k < 15
    ensures Degree4Value(k, 3.0 / 4.0, 0.0) == if k == 5 then 1.0 else 0.0
  {
  }

  lemma Degree4AtNode6(k: nat)
    requires k < 15
    ensures Degree4Value(k, 3.0 / 4.0, 1.0 / 4.0) == if k == 6 then 1.0 else 0.0
  {
  }

  lemma Degree4AtNode7(k: nat)
    requires k < 15
    ensures Degree4Value(k, 1.0 / 2.0, 1.0 / 2.0) == if k == 7 then 1.0 else 0.0
  {
  }

  lemma Degree4AtNode8(k: nat)
    requires k < 15
    ensures Degree4Value(k, 1.0 / 4.0, 3.0 / 4.0) == if k == 8 then 1.0 else 0.0
  {
  }

  lemma Degree4AtNode9(k: nat)
    requires k < 15
    ensures Degree4Value(k, 0.0, 3.0 / 4.0) == if k == 9 then 1.0 else 0.0
  {
  }

  lemma Degree4AtNode10(k: nat)
    requires k < 15
    ensures Degree4Value(k, 0.0, 1.0 / 2.0) == if k == 10 then 1.0 else 0.0
  {
  }

  lemma Degree4AtNode11(k: nat)
    requires k < 15
    ensures Degree4Value(k, 0.0, 1.0 / 4.0) == if k == 11 then 1.0 else 0.0
  {
  }

  lemma Degree4AtNode12(k: nat)
    requires k < 15
    ensures Degree4Value(k, 1.0 / 4.0, 1.0 / 4.0) == if k == 12 then 1.0 else 0.0
  {
  }

  lemma Degree4AtNode13(k: nat)
    requires k < 15
    ensures Degree4Value(k, 1.0 / 2.0, 1.0 / 4.0) == if k == 13 then 1.0 else 0.0
  {
  }

  lemma Degree4AtNode14(k: nat)
    requires k < 15
    ensures Degree4Value(k, 1.0 / 4.0, 1.0 / 2.0) == if k == 14 then 1.0 else 0.0
  {
  }

  /** The degree-4 basis function k is 1 at node k of Nodes4 and 0 at the other nodes. */
  lemma Degree4Kronecker(j: nat, k: nat)
    requires j < 15 && k < 15
    ensures Degree4Value(k, Nodes4[j].x, Nodes4[j].y) == if j == k then 1.0 else 0.0
  {
    if j == 0 {
      Degree4AtNode0(k);
    } else if j == 1 {
      Degree4AtNode1(k);
    } else if j == 2 {
      Degree4AtNode2(k);
    } else if j == 3 {
      Degree4AtNode3(k);
    } else if j == 4 {
      Degree4AtNode4(k);
    } else if j == 5 {
      Degree4AtNode5(k);
    } else if j == 6 {
      Degree4AtNode6(k);
    } else if j == 7 {
      Degree4AtNode7(k);
    } else if j == 8 {
      Degree4AtNode8(k);
    } else if j == 9 {
      Degree4AtNode9(k);
    } else if j == 10 {
      Degree4AtNode10(k);
    } else if j == 11 {
      Degree4AtNode11(k);
    } else if j == 12 {
      Degree4AtNode12(k);
    } else if j == 13 {
      Degree4AtNode13(k);
    } else {
      Degree4AtNode14(k);
    }
  }

  /** Entry k of the basis for a supported degree. */
  function Value(degree: nat, k: nat, xi: real, eta: real): real
    requires 1 <= degree <= 4 && k < CellSize(degree)
  {
    if degree == 1 then Degree1Value(k, xi, eta)
    else if degree == 2 then Degree2Value(k, xi, eta)
    else if degree == 3 then Degree3Value(k, xi, eta)
    else Degree4Value(k, xi, eta)
  }

  /** Row k of the gradients for a supported degree. */
  function Gradient(degree: nat, k: nat, xi: real, eta: real): Vec2
    requires 1 <= degree <= 4 && k < CellSize(degree)
  {
    if degree == 1 then Degree1Gradient(k, xi, eta)
    else if degree == 2 then Degree2Gradient(k, xi, eta)
    else if degree == 3 then Degree3Gradient(k, xi, eta)
    else Degree4Gradient(k, xi, eta)
  }

  /** The monomial expansions of the basis functions of a supported degree. */
  function Expansion(degree: nat): (r: seq<Coeffs>)
    requires 1 <= degree <= 4
    ensures |r| == CellSize(degree)
  {
    if degree == 1 then Expansion1
    else if degree == 2 then Expansion2
    else if degree == 3 then Expansion3
    else Expansion4
  }

  /** Entry k of the basis is the polynomial Expansion(degree)[k]; row k of the gradients holds its formal derivatives. */
  lemma ClosedFormExpansion(degree: nat, k: nat, xi: real, eta: real)
    requires 1 <= degree <= 4 && k < CellSize(degree)
    ensures Value(degree, k, xi, eta) == Eval(Expansion(degree)[k], xi, eta)
    ensures Gradient(degree, k, xi, eta) == Vec2(Eval(DX(Expansion(degree)[k]), xi, eta), Eval(DY(Expansion(degree)[k]), xi, eta))
  {
    if degree == 1 {
      Degree1Expanded(k, xi, eta);
    } else if degree == 2 {
      Degree2Expanded(k, xi, eta);
    } else if degree == 3 {
      Degree3Expanded(k, xi, eta);
    } else {
      Degree4Expanded(k, xi, eta);
    }
  }

  /** Basis function k is 1 at reference node j = k and 0 at every other reference node. */
  lemma NodalProperty(degree: nat, j: nat, k: nat)
    requires 1 <= degree <= 4 && j < CellSize(degree) && k < CellSize(degree)
    ensures Value(degree, k, TriangleNodes(degree)[j].x, TriangleNodes(degree)[j].y) == if j == k then 1.0 else 0.0
  {
    if degree == 1 {
      Degree1Kronecker(j, k);
    } else if degree == 2 {
      Degree2Kronecker(j, k);
    } else if degree == 3 {
      Degree3Kronecker(j, k);
    } else {
      Degree4Kronecker(j, k);
    }
  }

  /** Values and a gradient row given by the polynomial c are expanded as ExpansionX and ExpansionY say. */
  lemma ExpandedFromCoeffs(c: Coeffs, v: real, vx: real, vy: real, g: Vec2, x: real, y: real, t: real)
    requires v == Eval(c, x, y) && vx == Eval(c, x + t, y) && vy == Eval(c, x, y + t)
    requires g == Vec2(Eval(DX(c), x, y), Eval(DY(c), x, y))
    ensures Expanded(vx, v, g.x, RX(c, x, y, t), t)
    ensures Expanded(vy, v, g.y, RY(c, x, y, t), t)
  {
    ExpansionX(c, x, y, t);
    ExpansionY(c, x, y, t);
  }

  /**
   * `cell_basis_triangle_Lagrange`: the degree, the basis size
   * (d + 1)(d + 2)/2 and the reference nodes, fixed at construction.
   */
  class TriangleBasis {
    const degree: nat
    const size: nat := CellSize(degree)
    const refNodes: seq<Point> := TriangleNodes(degree)

    constructor(degree: nat)
      ensures this.degree == degree
      ensures size == (degree + 1) * (degree + 2) / 2
      ensures 1 <= degree <= 4 ==> |refNodes| == size
    {
      this.degree := degree;
    }

    /** `eval_basis`: the basis function values at pt, or an error for an unsupported degree. */
    function EvalBasis(pt: Point): (r: Result<seq<real>>)
      ensures r.Ok? <==> 1 <= degree <= 4
      ensures r.Ok? ==> |r.value| == size
      ensures r.Err? ==> r.error == UnsupportedDegree(degree)
    {
      if 1 <= degree <= 4 then Ok(seq(size, k requires 0 <= k < size => Value(degree, k, pt.x, pt.y)))
      else Err(UnsupportedDegree(degree))
    }

    /** `eval_gradients`: one row (d/dxi, d/deta) per basis function, or an error for an unsupported degree. */
    function EvalGradients(pt: Point): (r: Result<seq<Vec2>>)
      ensures r.Ok? <==> 1 <= degree <= 4
      ensures r.Ok? ==> |r.value| == size
      ensures r.Err? ==> r.error == UnsupportedDegree(degree)
    {
      if 1 <= degree <= 4 then Ok(seq(size, k requires 0 <= k < size => Gradient(degree, k, pt.x, pt.y)))
      else Err(UnsupportedDegree(degree))
    }

    lemma EntryOf(pt: Point, k: nat)
      requires 1 <= degree <= 4 && k < size
      ensures EvalBasis(pt).value[k] == Value(degree, k, pt.x, pt.y)
      ensures EvalGradients(pt).value[k] == Gradient(degree, k, pt.x, pt.y)
    {
    }

    /** At reference node j, basis function k is 1 if k = j and 0 otherwise. */
    lemma KroneckerAtNodes(j: nat, k: nat)
      requires 1 <= degree <= 4 && j < size && k < size
      ensures |refNodes| == size
      ensures EvalBasis(refNodes[j]).value[k] == if j == k then 1.0 else 0.0
    {
      NodalProperty(degree, j, k);
    }

    /**
     * Row k of `eval_gradients` is the derivative of basis function k: a step
     * t along either axis changes the function by t times the matching
     * component of the row, plus t^2 times a polynomial.
     */
    lemma GradientsAreDerivatives(pt: Point, t: real, k: nat)
      requires 1 <= degree <= 4 && k < size
      ensures Expanded(EvalBasis(Point(pt.x + t, pt.y)).value[k], EvalBasis(pt).value[k],
                       EvalGradients(pt).value[k].x, RX(Expansion(degree)[k], pt.x, pt.y, t), t)
      ensures Expanded(EvalBasis(Point(pt.x, pt.y + t)).value[k], EvalBasis(pt).value[k],
                       EvalGradients(pt).value[k].y, RY(Expansion(degree)[k], pt.x, pt.y, t), t)
    {
      var c := Expansion(degree)[k];
      assert EvalBasis(pt).value[k] == Eval(c, pt.x, pt.y) by {
        EntryOf(pt, k);
        ClosedFormExpansion(degree, k, pt.x, pt.y);
      }
      assert EvalGradients(pt).value[k] == Vec2(Eval(DX(c), pt.x, pt.y), Eval(DY(c), pt.x, pt.y)) by {
        EntryOf(pt, k);
        ClosedFormExpansion(degree, k, pt.x, pt.y);
      }
      assert EvalBasis(Point(pt.x + t, pt.y)).value[k] == Eval(c, pt.x + t, pt.y) by {
        EntryOf(Point(pt.x + t, pt.y), k);
        ClosedFormExpansion(degree, k, pt.x + t, pt.y);
      }
      assert EvalBasis(Point(pt.x, pt.y + t)).value[k] == Eval(c, pt.x, pt.y + t) by {
        EntryOf(Point(pt.x, pt.y + t), k);
        ClosedFormExpansion(degree, k, pt.x, pt.y + t);
      }
      ExpandedFromCoeffs(c, EvalBasis(pt).value[k], EvalBasis(Point(pt.x + t, pt.y)).value[k],
                         EvalBasis(Point(pt.x, pt.y + t)).value[k], EvalGradients(pt).value[k], pt.x, pt.y, t);
    }
  }
}
