/**
 * The 4x4 transformation matrix object: sixteen cells held in a 4x4 array
 * and overwritten in place by the factory setters and by `Multiply`.
 */
module Matrices {
  import opened Math3D

  class Matrix3D {
    /** The cells, `a[i, j]` being row i, column j. */
    const a: array2<real>

    ghost predicate Valid()
    {
      a.Length0 == 4 && a.Length1 == 4
    }

    /** The matrix the cells currently hold. */
    ghost function Value(): (m: Mat4)
      requires Valid()
      reads a
      ensures forall i, j | 0 <= i < 4 && 0 <= j < 4 :: m[i][j] == a[i, j]
    {
      seq(4, i requires 0 <= i < 4 reads a => seq(4, j requires 0 <= j < 4 reads a => a[i, j]))
    }

    /** The cells hold `m` as soon as each cell holds its entry. */
    lemma ValueIs(m: Mat4)
      requires Valid()
      requires forall i, j | 0 <= i < 4 && 0 <= j < 4 :: a[i, j] == m[i][j]
      ensures Value() == m
    {
      Mat4Ext(Value(), m);
    }

    /** A new matrix is the identity. */
    constructor ()
      ensures Valid() && fresh(a)
      ensures Value() == Identity()
    {
      a := new real[4, 4];
      new;
      SetIdentity();
    }

    method SetIdentity()
      requires Valid()
      modifies a
      ensures Value() == Identity()
    {
      var i := 0;
      while i < 4
        invariant 0 <= i <= 4
        invariant forall r, c | 0 <= r < i && 0 <= c < 4 :: a[r, c] == Identity()[r][c]
      {
        var j := 0;
        while j < 4
          invariant 0 <= j <= 4
          invariant forall r, c | 0 <= r < i && 0 <= c < 4 :: a[r, c] == Identity()[r][c]
          invariant forall c | 0 <= c < j :: a[i, c] == Identity()[i][c]
        {
          a[i, j] := if i == j then 1.0 else 0.0;
          j := j + 1;
        }
        i := i + 1;
      }
      ValueIs(Identity());
    }

    method SetTranslate(x: real, y: real, z: real)
      requires Valid()
      modifies a
      ensures Value() == Translation(x, y, z)
    {
      SetIdentity();
      a[0, 3] := x;
      a[1, 3] := y;
      a[2, 3] := z;
      ValueIs(Translation(x, y, z));
    }

    method SetScale(x: real, y: real, z: real)
      requires Valid()
      modifies a
      ensures Value() == Scaling(x, y, z)
    {
      SetIdentity();
      a[0, 0] := x;
      a[1, 1] := y;
      a[2, 2] := z;
      ValueIs(Scaling(x, y, z));
    }

    /** The one-argument `setScale`: the same factor on all three axes. */
    method SetUniformScale(s: real)
      requires Valid()
      modifies a
      ensures Value() == Scaling(s, s, s)
    {
      SetIdentity();
      a[0, 0] := s;
      a[1, 1] := s;
      a[2, 2] := s;
      ValueIs(Scaling(s, s, s));
    }

    /**
     * `setRotate` with the cosine `c` and sine `s` of the angle given
     * directly; an axis other than 0, 1 or 2 leaves the identity.
     */
    method SetRotate(axis: uint8, c: real, s: real)
      requires Valid()
      modifies a
      ensures Value() == Rotation(axis, c, s)
    {
      SetIdentity();
      if axis == AxisX {
        a[1, 1] := c;
        a[2, 2] := c;
        a[1, 2] := -s;
        a[2, 1] := s;
      } else if axis == AxisY {
        a[0, 0] := c;
        a[2, 2] := c;
        a[0, 2] := s;
        a[2, 0] := -s;
      } else if axis == AxisZ {
        a[0, 0] := c;
        a[1, 1] := c;
        a[0, 1] := s;
        a[1, 0] := -s;
      } else {
        return;
      }
      ValueIs(Rotation(axis, c, s));
    }

    method SetPerspective(fov: real, aspect: real, near: real)
      requires Valid()
      requires aspect != 0.0
      modifies a
      ensures Value() == Perspective(fov, aspect, near)
    {
      SetIdentity();
      a[0, 0] := fov / aspect;
      a[1, 1] := fov;
      a[2, 2] := 0.0;
      a[3, 3] := 0.0;
      a[2, 3] := -1.0;
      a[3, 2] := -near;
      ValueIs(Perspective(fov, aspect, near));
    }

    /**
     * In-place composition: this := this * m, one row at a time through a
     * four-cell buffer. `m` must not share its cells with this matrix: rows
     * already replaced would otherwise be read back as columns of `m`.
     */
    method Multiply(m: Matrix3D)
      requires Valid() && m.Valid()
      requires m.a != a
      modifies a
      ensures Value() == Product(old(Value()), m.Value())
      ensures m.Value() == old(m.Value())
    {
      ghost var lhs := Value();
      ghost var rhs := m.Value();
      var tmp := new real[4];
      var i := 0;
      while i < 4
        invariant 0 <= i <= 4
        invariant forall r, c | 0 <= r < i && 0 <= c < 4 :: a[r, c] == Entry(lhs, rhs, r, c)
        invariant forall r, c | i <= r < 4 && 0 <= c < 4 :: a[r, c] == lhs[r][c]
        invariant m.Value() == rhs
        modifies a, tmp
      {
        // Every entry of row i goes to tmp while the row still holds its old cells.
        RowTimesMatrix(m, i, lhs, rhs, tmp);
        CopyRow(i, tmp);
        i := i + 1;
      }
      ValueIs(Product(lhs, rhs));
    }

    /** Fills `buf` with row i of lhs * rhs, where row i of this matrix holds row i of lhs and `m` holds rhs. */
    method RowTimesMatrix(m: Matrix3D, i: nat, ghost lhs: Mat4, ghost rhs: Mat4, buf: array<real>)
      requires Valid() && m.Valid() && i < 4 && buf.Length == 4
      requires forall k | 0 <= k < 4 :: a[i, k] == lhs[i][k]
      requires forall k, j | 0 <= k < 4 && 0 <= j < 4 :: m.a[k, j] == rhs[k][j]
      modifies buf
      ensures forall c | 0 <= c < 4 :: buf[c] == Entry(lhs, rhs, i, c)
    {
      var j := 0;
      while j < 4
        invariant 0 <= j <= 4
        invariant forall c | 0 <= c < j :: buf[c] == Entry(lhs, rhs, i, c)
      {
        var n := 0.0;
        var k := 0;
        while k < 4
          invariant 0 <= k <= 4
          invariant n == PartialEntry(lhs, rhs, i, j, k)
        {
          n := n + a[i, k] * m.a[k, j];
          k := k + 1;
        }
        PartialEntryComplete(lhs, rhs, i, j);
        buf[j] := n;
        j := j + 1;
      }
    }

    /** Overwrites row i with the four cells of `buf`; the other rows keep their cells. */
    method CopyRow(i: nat, buf: array<real>)
      requires Valid() && i < 4 && buf.Length == 4
      modifies a
      ensures forall c | 0 <= c < 4 :: a[i, c] == buf[c]
      ensures forall r, c | 0 <= r < 4 && r != i && 0 <= c < 4 :: a[r, c] == old(a[r, c])
    {
      var j := 0;
      while j < 4
        invariant 0 <= j <= 4
        invariant forall c | 0 <= c < j :: a[i, c] == buf[c]
        invariant forall r, c | 0 <= r < 4 && r != i && 0 <= c < 4 :: a[r, c] == old(a[r, c])
      {
        a[i, j] := buf[j];
        j := j + 1;
      }
    }
  }

  /** The running sum of the first k products of row i of `a` with column j of `b`. */
  function PartialEntry(a: Mat4, b: Mat4, i: nat, j: nat, k: nat): real
    requires i < 4 && j < 4 && k <= 4
  {
    if k == 0 then 0.0 else PartialEntry(a, b, i, j, k - 1) + a[i][k - 1] * b[k - 1][j]
  }

  /** After all four products the running sum is the entry of the product. */
  lemma PartialEntryComplete(a: Mat4, b: Mat4, i: nat, j: nat)
    requires i < 4 && j < 4
    ensures PartialEntry(a, b, i, j, 4) == Product(a, b)[i][j]
  {
    assert PartialEntry(a, b, i, j, 1) == a[i][0] * b[0][j];
    assert PartialEntry(a, b, i, j, 2) == a[i][0] * b[0][j] + a[i][1] * b[1][j];
  }
}
