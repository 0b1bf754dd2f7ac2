/** The homogeneous point's `multiply`: the product of a matrix object and a point. */
module Vectors {
  import opened Math3D
  import opened Matrices

  /**
   * Reads the cells of `m` and returns m * v, each component being the dot
   * product of the matching row with (v.x, v.y, v.z, v.w). The point is a
   * value, so the result is a new point and neither `m` nor `v` changes.
   */
  method Multiply(m: Matrix3D, v: Vector3D) returns (t: Vector3D)
    requires m.Valid()
    ensures t == Transform(m.Value(), v)
  {
    var x := m.a[0, 0] * v.x + m.a[0, 1] * v.y + m.a[0, 2] * v.z + m.a[0, 3] * v.w;
    var y := m.a[1, 0] * v.x + m.a[1, 1] * v.y + m.a[1, 2] * v.z + m.a[1, 3] * v.w;
    var z := m.a[2, 0] * v.x + m.a[2, 1] * v.y + m.a[2, 2] * v.z + m.a[2, 3] * v.w;
    var w := m.a[3, 0] * v.x + m.a[3, 1] * v.y + m.a[3, 2] * v.z + m.a[3, 3] * v.w;
    t := Vector3D(x, y, z, w);
  }
}
