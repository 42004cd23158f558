/** The point-symmetry operators of xrsdkit/scattering/symmetries.py: the inversion and
    nine mirrors as integer 3x3 matrices acting on Miller-index vectors (`M x = x'`), and
    the table of operations per point group. */
module Symmetries {
  import opened Common

  /** A column vector (h, k, l). */
  type Vec = (int, int, int)

  /** A 3x3 matrix by rows, as the nested lists given to `np.array`. */
  datatype Matrix = Matrix(r0: Vec, r1: Vec, r2: Vec)

  function Dot(u: Vec, v: Vec): int
  {
    u.0 * v.0 + u.1 * v.1 + u.2 * v.2
  }

  /** `M x`. */
  function Apply(a: Matrix, v: Vec): Vec
  {
    (Dot(a.r0, v), Dot(a.r1, v), Dot(a.r2, v))
  }

  function Transpose(a: Matrix): Matrix
  {
    Matrix((a.r0.0, a.r1.0, a.r2.0), (a.r0.1, a.r1.1, a.r2.1), (a.r0.2, a.r1.2, a.r2.2))
  }

  /** The matrix product `A B`, entry (i, j) being row i of A dotted with column j of B. */
  function Mul(a: Matrix, b: Matrix): Matrix
  {
    var c := Transpose(b);
    Matrix((Dot(a.r0, c.r0), Dot(a.r0, c.r1), Dot(a.r0, c.r2)),
           (Dot(a.r1, c.r0), Dot(a.r1, c.r1), Dot(a.r1, c.r2)),
           (Dot(a.r2, c.r0), Dot(a.r2, c.r1), Dot(a.r2, c.r2)))
  }

  /** The determinant, by cofactors along the first row. */
  function Det(a: Matrix): int
  {
    a.r0.0 * (a.r1.1 * a.r2.2 - a.r1.2 * a.r2.1)
    - a.r0.1 * (a.r1.0 * a.r2.2 - a.r1.2 * a.r2.0)
    + a.r0.2 * (a.r1.0 * a.r2.1 - a.r1.1 * a.r2.0)
  }

  function Identity(): Matrix
  {
    Matrix((1, 0, 0), (0, 1, 0), (0, 0, 1))
  }

  /** The product applied to a vector is the second factor applied, then the first. */
  lemma ApplyMul(a: Matrix, b: Matrix, v: Vec)
    ensures Apply(Mul(a, b), v) == Apply(a, Apply(b, v))
  {
    var c := Transpose(b);
    assert Dot(a.r0, Apply(b, v)) == Dot((Dot(a.r0, c.r0), Dot(a.r0, c.r1), Dot(a.r0, c.r2)), v);
    assert Dot(a.r1, Apply(b, v)) == Dot((Dot(a.r1, c.r0), Dot(a.r1, c.r1), Dot(a.r1, c.r2)), v);
    assert Dot(a.r2, Apply(b, v)) == Dot((Dot(a.r2, c.r0), Dot(a.r2, c.r1), Dot(a.r2, c.r2)), v);
  }

  lemma ApplyIdentity(v: Vec)
    ensures Apply(Identity(), v) == v
  {
  }

  /** A matrix whose action undoes itself on every vector squares to the identity. */
  lemma InvolutionByAction(a: Matrix)
    requires forall v: Vec :: Apply(a, Apply(a, v)) == v
    ensures Mul(a, a) == Identity()
  {
    var e0, e1, e2 := (1, 0, 0), (0, 1, 0), (0, 0, 1);
    ApplyMul(a, a, e0);
    ApplyMul(a, a, e1);
    ApplyMul(a, a, e2);
    assert Apply(Mul(a, a), e0) == e0 && Apply(Mul(a, a), e1) == e1 && Apply(Mul(a, a), e2) == e2;
  }

  /** A symmetric involution is orthogonal: `M M^T = I`. */
  lemma SymmetricInvolutionIsOrthogonal(a: Matrix)
    requires Transpose(a) == a && Mul(a, a) == Identity()
    ensures Mul(a, Transpose(a)) == Identity()
  {
  }

  // ---------------------------------------------------------------------------
  // The operators

  const Inversion := Matrix((-1, 0, 0), (0, -1, 0), (0, 0, -1))
  const MirrorX := Matrix((-1, 0, 0), (0, 1, 0), (0, 0, 1))
  const MirrorY := Matrix((1, 0, 0), (0, -1, 0), (0, 0, 1))
  const MirrorZ := Matrix((1, 0, 0), (0, 1, 0), (0, 0, -1))
  const MirrorXY := Matrix((0, -1, 0), (-1, 0, 0), (0, 0, 1))
  const MirrorYZ := Matrix((1, 0, 0), (0, 0, -1), (0, -1, 0))
  const MirrorZX := Matrix((0, 0, -1), (0, 1, 0), (-1, 0, 0))
  const MirrorNxY := Matrix((0, 1, 0), (1, 0, 0), (0, 0, 1))
  const MirrorNyZ := Matrix((1, 0, 0), (0, 0, 1), (0, 1, 0))
  const MirrorNzX := Matrix((0, 0, 1), (0, 1, 0), (1, 0, 0))

  /** The three axial mirrors, then the six diagonal mirrors, in the order they are defined. */
  function Mirrors(): seq<Matrix>
  {
    [MirrorX, MirrorY, MirrorZ, MirrorXY, MirrorYZ, MirrorZX, MirrorNxY, MirrorNyZ, MirrorNzX]
  }

  /** The inversion negates every coordinate. */
  lemma InversionAction(v: Vec)
    ensures Apply(Inversion, v) == (-v.0, -v.1, -v.2)
  {
  }

  /** Each axial mirror negates exactly its own coordinate. */
  lemma AxialMirrorActions(v: Vec)
    ensures Apply(MirrorX, v) == (-v.0, v.1, v.2)
    ensures Apply(MirrorY, v) == (v.0, -v.1, v.2)
    ensures Apply(MirrorZ, v) == (v.0, v.1, -v.2)
  {
  }

  /** The `nx_y`, `ny_z` and `nz_x` mirrors swap two coordinates; the `x_y`, `y_z` and
      `z_x` mirrors swap them and negate both. */
  lemma DiagonalMirrorActions(v: Vec)
    ensures Apply(MirrorNxY, v) == (v.1, v.0, v.2)
    ensures Apply(MirrorNyZ, v) == (v.0, v.2, v.1)
    ensures Apply(MirrorNzX, v) == (v.2, v.1, v.0)
    ensures Apply(MirrorXY, v) == (-v.1, -v.0, v.2)
    ensures Apply(MirrorYZ, v) == (v.0, -v.2, -v.1)
    ensures Apply(MirrorZX, v) == (-v.2, v.1, -v.0)
  {
  }

  /** The inversion and every mirror is an involution with determinant -1, symmetric,
      and therefore orthogonal. */
  lemma {:induction false} OperatorLaws(a: Matrix)
    requires a == Inversion || a in Mirrors()
    ensures Mul(a, a) == Identity()
    ensures Det(a) == -1
    ensures Transpose(a) == a
    ensures Mul(a, Transpose(a)) == Identity()
  {
    forall v: Vec ensures Apply(a, Apply(a, v)) == v {
      SelfInverse(a, v);
    }
    DeterminantAndSymmetry(a);
    InvolutionByAction(a);
    SymmetricInvolutionIsOrthogonal(a);
  }

  /** Applying an operator twice gives back the vector. */
  lemma SelfInverse(a: Matrix, v: Vec)
    requires a == Inversion || a in Mirrors()
    ensures Apply(a, Apply(a, v)) == v
  {
    if a == Inversion {
      InversionAction(v);
      InversionAction(Apply(a, v));
    } else if a == MirrorX || a == MirrorY || a == MirrorZ {
      AxialMirrorActions(v);
      AxialMirrorActions(Apply(a, v));
    } else {
      DiagonalMirrorActions(v);
      DiagonalMirrorActions(Apply(a, v));
    }
  }

  lemma DeterminantAndSymmetry(a: Matrix)
    requires a == Inversion || a in Mirrors()
    ensures Det(a) == -1 && Transpose(a) == a
  {
  }

  // ---------------------------------------------------------------------------
  // The table

  /** `symmetry_operations[point_group]` for the four point groups it assigns; the other
      point groups of the table are left unset (`None`). */
  function SymmetryOperations(pointGroup: string): (ops: Option<seq<Matrix>>)
    ensures ops.Some? <==> pointGroup in {"1", "-1", "m-3m", "6/mmm"}
    ensures ops.Some? ==> forall a :: a in ops.value ==> a == Inversion || a in Mirrors()
  {
    match pointGroup
    case "1" => Some([])
    case "-1" => Some([Inversion])
    case "m-3m" => Some(Mirrors())
    case "6/mmm" => Some([MirrorZ, MirrorXY, MirrorNxY])
    case _ => None
  }

  /** Every operation in the table is an involution with determinant -1. */
  lemma TableOperatorsAreInvolutions(pointGroup: string, a: Matrix)
    requires SymmetryOperations(pointGroup).Some? && a in SymmetryOperations(pointGroup).value
    ensures Mul(a, a) == Identity() && Det(a) == -1
  {
    OperatorLaws(a);
  }

  /** The hexagonal operations are among the cubic ones, and the cubic group lists nine
      distinct mirrors. */
  lemma TableNesting()
    ensures forall a :: a in SymmetryOperations("6/mmm").value ==> a in SymmetryOperations("m-3m").value
    ensures |SymmetryOperations("m-3m").value| == 9
    ensures forall i, j :: 0 <= i < j < 9 ==> Mirrors()[i] != Mirrors()[j]
  {
  }
}
