/**
 * Homogeneous points and 4x4 transformation matrices as mathematical values,
 * with the reference algebra that the imperative matrix and pipeline code is
 * proved against: the identity, the factory matrices (translate, scale,
 * rotate, perspective), the matrix product and the matrix-vector product.
 *
 * Cells are `real`: the single/double precision of the C++ code is not modelled.
 */
module Math3D {

  /** An unsigned byte (`uint8_t`). */
  type uint8 = x: int | 0 <= x < 256

  /** Axis selectors accepted by the rotation factory. */
  const AxisX: int := 0
  const AxisY: int := 1
  const AxisZ: int := 2

  /** A homogeneous point (x, y, z, w). */
  datatype Vector3D = Vector3D(x: real, y: real, z: real, w: real)

  predicate Is4x4(m: seq<seq<real>>)
  {
    |m| == 4 && forall i | 0 <= i < 4 :: |m[i]| == 4
  }

  /** A 4x4 matrix, row-major: `m[i][j]` is row i, column j. */
  type Mat4 = m: seq<seq<real>> | Is4x4(m)
    witness [[0.0, 0.0, 0.0, 0.0], [0.0, 0.0, 0.0, 0.0], [0.0, 0.0, 0.0, 0.0], [0.0, 0.0, 0.0, 0.0]]

  function Identity(): Mat4
  {
    [[1.0, 0.0, 0.0, 0.0],
     [0.0, 1.0, 0.0, 0.0],
     [0.0, 0.0, 1.0, 0.0],
     [0.0, 0.0, 0.0, 1.0]]
  }

  /** Identity with the translation column (rows 0..2 of column 3) set to (x, y, z). */
  function Translation(x: real, y: real, z: real): Mat4
  {
    [[1.0, 0.0, 0.0, x],
     [0.0, 1.0, 0.0, y],
     [0.0, 0.0, 1.0, z],
     [0.0, 0.0, 0.0, 1.0]]
  }

  /** Diagonal (x, y, z, 1). */
  function Scaling(x: real, y: real, z: real): Mat4
  {
    [[x, 0.0, 0.0, 0.0],
     [0.0, y, 0.0, 0.0],
     [0.0, 0.0, z, 0.0],
     [0.0, 0.0, 0.0, 1.0]]
  }

  /**
   * The rotation block for `axis`, given the cosine `c` and sine `s` of the
   * angle; any other axis value gives the identity.
   */
  function Rotation(axis: int, c: real, s: real): Mat4
  {
    if axis == AxisX then
      [[1.0, 0.0, 0.0, 0.0],
       [0.0, c, -s, 0.0],
       [0.0, s, c, 0.0],
       [0.0, 0.0, 0.0, 1.0]]
    else if axis == AxisY then
      [[c, 0.0, s, 0.0],
       [0.0, 1.0, 0.0, 0.0],
       [-s, 0.0, c, 0.0],
       [0.0, 0.0, 0.0, 1.0]]
    else if axis == AxisZ then
      [[c, s, 0.0, 0.0],
       [-s, c, 0.0, 0.0],
       [0.0, 0.0, 1.0, 0.0],
       [0.0, 0.0, 0.0, 1.0]]
    else
      Identity()
  }

  /** The custom perspective matrix: no far-plane term, w' = -near * z and z' = -w. */
  function Perspective(fov: real, aspect: real, near: real): Mat4
    requires aspect != 0.0
  {
    [[fov / aspect, 0.0, 0.0, 0.0],
     [0.0, fov, 0.0, 0.0],
     [0.0, 0.0, 0.0, -1.0],
     [0.0, 0.0, -near, 0.0]]
  }

  /** Row i of `a` dotted with column j of `b`. */
  function Entry(a: Mat4, b: Mat4, i: nat, j: nat): real
    requires i < 4 && j < 4
  {
    a[i][0] * b[0][j] + a[i][1] * b[1][j] + a[i][2] * b[2][j] + a[i][3] * b[3][j]
  }

  /** The matrix product a * b. */
  function Product(a: Mat4, b: Mat4): (p: Mat4)
    ensures forall i, j | 0 <= i < 4 && 0 <= j < 4 :: p[i][j] == Entry(a, b, i, j)
  {
    seq(4, i requires 0 <= i < 4 => seq(4, j requires 0 <= j < 4 => Entry(a, b, i, j)))
  }

  /** Row r of `m` dotted with (v.x, v.y, v.z, v.w). */
  function RowTimes(m: Mat4, r: nat, v: Vector3D): real
    requires r < 4
  {
    m[r][0] * v.x + m[r][1] * v.y + m[r][2] * v.z + m[r][3] * v.w
  }

  /** The matrix-vector product m * v. */
  function Transform(m: Mat4, v: Vector3D): Vector3D
  {
    Vector3D(RowTimes(m, 0, v), RowTimes(m, 1, v), RowTimes(m, 2, v), RowTimes(m, 3, v))
  }

  /** Two matrices are equal when their cells are. */
  lemma Mat4Ext(a: Mat4, b: Mat4)
    requires forall i, j | 0 <= i < 4 && 0 <= j < 4 :: a[i][j] == b[i][j]
    ensures a == b
  {
    forall i | 0 <= i < 4
      ensures a[i] == b[i]
    {
      assert |a[i]| == |b[i]| == 4;
    }
  }

  /** The identity is a right unit of the product. */
  lemma ProductIdentityRight(a: Mat4)
    ensures Product(a, Identity()) == a
  {
    Mat4Ext(Product(a, Identity()), a);
  }

  /** The identity is a left unit of the product. */
  lemma ProductIdentityLeft(b: Mat4)
    ensures Product(Identity(), b) == b
  {
    Mat4Ext(Product(Identity(), b), b);
  }

  /** The identity leaves every point where it is. */
  lemma TransformIdentity(v: Vector3D)
    ensures Transform(Identity(), v) == v
  {
  }

  lemma RowTimesProduct(a: Mat4, b: Mat4, r: nat, v: Vector3D)
    requires r < 4
    ensures RowTimes(Product(a, b), r, v) == RowTimes(a, r, Transform(b, v))
  {
    ProductRowExpanded(a, b, r, v);
    TransformRowExpanded(a, b, r, v);
    SumsAgree(a, b, r, v);
  }

  /** Row r of a matrix, as a tuple of four reals. */
  function Row(m: Mat4, r: nat): Vector3D
    requires r < 4
  {
    Vector3D(m[r][0], m[r][1], m[r][2], m[r][3])
  }

  function Dot(p: Vector3D, q: Vector3D): real
  {
    p.x * q.x + p.y * q.y + p.z * q.z + p.w * q.w
  }

  /** Row r of a * b applied to v, summed column by column. */
  function ColumnSums(a: Mat4, b: Mat4, r: nat, v: Vector3D): real
    requires r < 4
  {
    var r0, r1, r2, r3 := Row(b, 0), Row(b, 1), Row(b, 2), Row(b, 3);
    (a[r][0] * r0.x + a[r][1] * r1.x + a[r][2] * r2.x + a[r][3] * r3.x) * v.x
    + (a[r][0] * r0.y + a[r][1] * r1.y + a[r][2] * r2.y + a[r][3] * r3.y) * v.y
    + (a[r][0] * r0.z + a[r][1] * r1.z + a[r][2] * r2.z + a[r][3] * r3.z) * v.z
    + (a[r][0] * r0.w + a[r][1] * r1.w + a[r][2] * r2.w + a[r][3] * r3.w) * v.w
  }

  /** Row r of a applied to b * v, summed row by row of b. */
  function RowSums(a: Mat4, b: Mat4, r: nat, v: Vector3D): real
    requires r < 4
  {
    a[r][0] * Dot(Row(b, 0), v) + a[r][1] * Dot(Row(b, 1), v)
    + a[r][2] * Dot(Row(b, 2), v) + a[r][3] * Dot(Row(b, 3), v)
  }

  lemma ProductRowExpanded(a: Mat4, b: Mat4, r: nat, v: Vector3D)
    requires r < 4
    ensures RowTimes(Product(a, b), r, v) == ColumnSums(a, b, r, v)
  {
    var p := Product(a, b);
    assert p[r][0] == Entry(a, b, r, 0);
    assert p[r][1] == Entry(a, b, r, 1);
    assert p[r][2] == Entry(a, b, r, 2);
    assert p[r][3] == Entry(a, b, r, 3);
  }

  lemma TransformRowExpanded(a: Mat4, b: Mat4, r: nat, v: Vector3D)
    requires r < 4
    ensures RowTimes(a, r, Transform(b, v)) == RowSums(a, b, r, v)
  {
    assert Transform(b, v) == Vector3D(Dot(Row(b, 0), v), Dot(Row(b, 1), v), Dot(Row(b, 2), v), Dot(Row(b, 3), v));
  }

  lemma SumsAgree(a: Mat4, b: Mat4, r: nat, v: Vector3D)
    requires r < 4
    ensures ColumnSums(a, b, r, v) == RowSums(a, b, r, v)
  {
    Regroup(a[r][0], a[r][1], a[r][2], a[r][3], Row(b, 0), Row(b, 1), Row(b, 2), Row(b, 3), v);
  }

  /** Summing the products column by column or row by row gives the same number. */
  lemma Regroup(a0: real, a1: real, a2: real, a3: real, r0: Vector3D, r1: Vector3D, r2: Vector3D, r3: Vector3D, v: Vector3D)
    ensures (a0 * r0.x + a1 * r1.x + a2 * r2.x + a3 * r3.x) * v.x
          + (a0 * r0.y + a1 * r1.y + a2 * r2.y + a3 * r3.y) * v.y
          + (a0 * r0.z + a1 * r1.z + a2 * r2.z + a3 * r3.z) * v.z
          + (a0 * r0.w + a1 * r1.w + a2 * r2.w + a3 * r3.w) * v.w
         == a0 * Dot(r0, v) + a1 * Dot(r1, v) + a2 * Dot(r2, v) + a3 * Dot(r3, v)
  {
  }

  /**
   * Chaining: transforming by the product a * b is transforming by b and
   * then by a, so a matrix composed with `multiply` applies the matrix
   * multiplied in last first.
   */
  lemma TransformProduct(a: Mat4, b: Mat4, v: Vector3D)
    ensures Transform(Product(a, b), v) == Transform(a, Transform(b, v))
  {
    RowTimesProduct(a, b, 0, v);
    RowTimesProduct(a, b, 1, v);
    RowTimesProduct(a, b, 2, v);
    RowTimesProduct(a, b, 3, v);
  }

  /** A translation adds (x, y, z) scaled by w. */
  lemma TransformTranslation(x: real, y: real, z: real, v: Vector3D)
    ensures Transform(Translation(x, y, z), v)
         == Vector3D(v.x + x * v.w, v.y + y * v.w, v.z + z * v.w, v.w)
  {
  }

  /** A scaling multiplies each of x, y, z by its factor and keeps w. */
  lemma TransformScaling(x: real, y: real, z: real, v: Vector3D)
    ensures Transform(Scaling(x, y, z), v) == Vector3D(x * v.x, y * v.y, z * v.z, v.w)
  {
  }

  /** Row 3 and column 3 of every rotation are those of the identity. */
  lemma RotationKeepsRow3Column3(axis: int, c: real, s: real)
    ensures forall k | 0 <= k < 4 ::
      Rotation(axis, c, s)[3][k] == Identity()[3][k] && Rotation(axis, c, s)[k][3] == Identity()[k][3]
  {
  }

  /** A rotation by angle 0 (cosine 1, sine 0) is the identity, whatever the axis. */
  lemma RotationByZero(axis: int)
    ensures Rotation(axis, 1.0, 0.0) == Identity()
  {
  }

  /** The squared length of the point's (x, y, z) part. */
  function SquaredLength(v: Vector3D): real
  {
    v.x * v.x + v.y * v.y + v.z * v.z
  }

  /**
   * When c and s are a cosine and a sine (c*c + s*s == 1), a rotation about
   * any axis keeps w and the squared length of the point.
   */
  lemma RotationPreservesLength(axis: int, c: real, s: real, v: Vector3D)
    requires c * c + s * s == 1.0
    ensures SquaredLength(Transform(Rotation(axis, c, s), v)) == SquaredLength(v)
    ensures Transform(Rotation(axis, c, s), v).w == v.w
  {
    TransformRotation(axis, c, s, v);
    TurnedLength(axis, c, s, v, Transform(Rotation(axis, c, s), v));
  }

  lemma TurnedLength(axis: int, c: real, s: real, v: Vector3D, r: Vector3D)
    requires c * c + s * s == 1.0
    requires axis == AxisX ==> r == Vector3D(v.x, c * v.y - s * v.z, s * v.y + c * v.z, v.w)
    requires axis == AxisY ==> r == Vector3D(c * v.x - (-s) * v.z, v.y, (-s) * v.x + c * v.z, v.w)
    requires axis == AxisZ ==> r == Vector3D(c * v.x - (-s) * v.y, (-s) * v.x + c * v.y, v.z, v.w)
    requires axis != AxisX && axis != AxisY && axis != AxisZ ==> r == v
    ensures SquaredLength(r) == SquaredLength(v) && r.w == v.w
  {
    if axis == AxisX {
      RotatePair(c, s, v.y, v.z);
    } else if axis == AxisY {
      RotatePair(c, -s, v.x, v.z);
    } else if axis == AxisZ {
      RotatePair(c, -s, v.x, v.y);
    }
  }

  /**
   * What each rotation does to a point: about x it turns (y, z), about y it
   * turns (z, x) and about z it turns (y, x), each by the angle whose cosine
   * and sine are c and s; any other axis leaves the point where it is.
   */
  lemma TransformRotation(axis: int, c: real, s: real, v: Vector3D)
    ensures axis == AxisX ==>
      Transform(Rotation(axis, c, s), v) == Vector3D(v.x, c * v.y - s * v.z, s * v.y + c * v.z, v.w)
    ensures axis == AxisY ==>
      Transform(Rotation(axis, c, s), v) == Vector3D(c * v.x - (-s) * v.z, v.y, (-s) * v.x + c * v.z, v.w)
    ensures axis == AxisZ ==>
      Transform(Rotation(axis, c, s), v) == Vector3D(c * v.x - (-s) * v.y, (-s) * v.x + c * v.y, v.z, v.w)
    ensures axis != AxisX && axis != AxisY && axis != AxisZ ==> Transform(Rotation(axis, c, s), v) == v
  {
  }

  /** A plane rotation by (c, s) with c*c + s*s == 1 keeps the squared length of (p, q). */
  lemma RotatePair(c: real, s: real, p: real, q: real)
    requires c * c + s * s == 1.0
    ensures (c * p - s * q) * (c * p - s * q) + (s * p + c * q) * (s * p + c * q) == p * p + q * q
  {
    assert (c * p - s * q) * (c * p - s * q) + (s * p + c * q) * (s * p + c * q) == (c * c + s * s) * (p * p + q * q);
  }

  /** The perspective matrix sends z to -w and w to -near * z. */
  lemma TransformPerspective(fov: real, aspect: real, near: real, v: Vector3D)
    requires aspect != 0.0
    ensures Transform(Perspective(fov, aspect, near), v)
         == Vector3D(fov / aspect * v.x, fov * v.y, -v.w, -near * v.z)
  {
  }
}
