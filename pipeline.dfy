/**
 * The rendering pipeline object: four move/draw levels stacked on top of
 * each other. Level 4 transforms a point by the pipeline's matrix, level 3
 * clips it against the clip volume, level 2 maps it to a pixel in the
 * viewport rectangle and level 1 draws a line from the pen to that pixel.
 * The display's line primitive is replaced by a record of every segment it
 * would have been given (`lines`).
 */
module Rendering {
  import opened Math3D
  import opened Matrices
  import Vectors
  import opened Clip
  import opened Stages

  class Pipeline {
    /** The matrix every point is multiplied by before clipping; callers may adjust it. */
    const transformation: Matrix3D

    /** The viewport rectangle, in pixels. */
    const minx: uint8
    const maxx: uint8
    const miny: uint8
    const maxy: uint8

    /** The pen: where level 1 drew or moved to last. */
    var xpos: uint8
    var ypos: uint8

    /** The previous clip-space point given to level 3, and its out-code. */
    var oldPos: Vector3D
    var oldOutCode: bv8

    /** Every segment handed to the display, in order. */
    ghost var lines: seq<Segment>

    /**
     * Whether a point has been given to level 3 yet. Before that, the pen
     * and the previous point hold no value, so the first call must be a move.
     */
    ghost var primed: bool

    function View(): Viewport
    {
      Viewport(minx, maxx, miny, maxy)
    }

    /** The pen and the segments drawn so far. */
    ghost function Display(): Screen
      reads this
    {
      Screen(Pixel(xpos, ypos), lines)
    }

    /**
     * Once a point has been given, the out-code is that of the previous
     * point and the pen sits on its pixel whenever it is inside; in a
     * non-inverted viewport nothing has been drawn outside the rectangle.
     */
    ghost predicate Valid()
      reads this
    {
      && transformation.Valid()
      && (primed ==> PenAt(View(), oldPos, oldOutCode, Pixel(xpos, ypos)))
      && (Ordered(View()) ==> OnScreen(View(), lines))
    }

    /** A pipeline over the given rectangle, with the identity as its transformation and nothing drawn. */
    constructor (xmin: uint8, xmax: uint8, ymin: uint8, ymax: uint8)
      ensures minx == xmin && maxx == xmax && miny == ymin && maxy == ymax
      ensures Valid() && fresh(transformation) && fresh(transformation.a)
      ensures transformation.Value() == Identity()
      ensures !primed && lines == []
    {
      minx := xmin;
      maxx := xmax;
      miny := ymin;
      maxy := ymax;
      transformation := new Matrix3D();
      lines := [];
      primed := false;
    }

    /** Level 1: draw a line from the pen to (x, y) when `draw` is set, then move the pen there. */
    method Mdl1(draw: bool, x: uint8, y: uint8)
      modifies this`xpos, this`ypos, this`lines
      ensures Display() == Mdl1Step(draw, Pixel(x, y), old(Display()))
    {
      if draw {
        lines := lines + [Segment(Pixel(xpos, ypos), Pixel(x, y))];
      }
      xpos := x;
      ypos := y;
    }

    /** Level 2: the pixel of a clipped point, handed to level 1. */
    method Mdl2(draw: bool, v: Vector3D)
      requires v.w != 0.0
      modifies this`xpos, this`ypos, this`lines
      ensures Display() == Mdl2Step(View(), draw, v, old(Display()))
    {
      var x := Byte(minx as int + Offset(maxx as int - minx as int, v.x / v.w));
      var y := Byte(maxy as int - Offset(maxy as int - miny as int, v.y / v.w));
      Mdl1(draw, x, y);
    }

    /**
     * Level 3, the clipper: the level-2 calls it makes are exactly
     * `ClipCalls`, after which v is the previous point. A move goes through
     * only when v is inside; a draw is rejected when both points are outside
     * one plane, passed straight on when both are inside, and otherwise
     * narrowed by `Narrow` and, if anything is left, drawn from its first
     * to its last visible point.
     */
    method Mdl3(draw: bool, v: Vector3D)
      requires Valid() && (draw ==> primed)
      requires Projectable(ClipCalls(draw, oldPos, oldOutCode, v))
      modifies this`xpos, this`ypos, this`lines, this`oldPos, this`oldOutCode, this`primed
      ensures Valid() && primed
      ensures oldPos == v && oldOutCode == OutCode(v)
      ensures Display() == Replay(View(), ClipCalls(draw, old(oldPos), old(oldOutCode), v), old(Display()))
    {
      var o, oc := oldPos, oldOutCode;
      ghost var s0 := Display();
      ghost var calls := ClipCalls(draw, o, oc, v);
      var newOutCode := OutCode(v);
      if draw {
        ClipDraw(o, oc, v, newOutCode);
      } else {
        if newOutCode == 0 {
          assert calls == [Mdl2Call(false, v)] && calls[0].p.w != 0.0;
          Mdl2(draw, v);
          ReplayOne(View(), Mdl2Call(false, v), s0);
        } else {
          assert calls == [];
        }
      }
      oldOutCode := newOutCode;
      oldPos := v;
      primed := true;
      PenAfter(View(), draw, o, oc, v, s0);
      if Ordered(View()) {
        ClipKeepsOnScreen(View(), draw, o, oc, v, s0);
      }
    }

    /**
     * The drawing half of level 3: a draw from o (out-code oc) to v
     * (out-code nc) makes exactly the level-2 calls `ClipCalls` lists.
     */
    method ClipDraw(o: Vector3D, oc: bv8, v: Vector3D, nc: bv8)
      requires oc == OutCode(o) && nc == OutCode(v)
      requires Projectable(ClipCalls(true, o, oc, v))
      modifies this`xpos, this`ypos, this`lines
      ensures Display() == Replay(View(), ClipCalls(true, o, oc, v), old(Display()))
    {
      ghost var s0 := Display();
      ghost var calls := ClipCalls(true, o, oc, v);
      var mask := nc | oc;
      if nc & oc == 0 {
        if mask == 0 {
          assert calls == [Mdl2Call(true, v)] && calls[0].p.w != 0.0;
          Mdl2(true, v);
          ReplayOne(View(), Mdl2Call(true, v), s0);
        } else {
          var visible, aold, anew := Narrow(o, oc, v, nc);
          if visible {
            var last := Mdl2Call(true, if nc != 0 then Lerp(o, v, anew) else v);
            if oc != 0 {
              var lerp := Lerp(o, v, aold);
              assert calls == [Mdl2Call(false, lerp), last];
              assert calls[0].p.w != 0.0 && calls[1].p.w != 0.0;
              Mdl2(false, lerp);
              ReplayTwo(View(), Mdl2Call(false, lerp), last, s0);
            } else {
              assert calls == [last] && calls[0].p.w != 0.0;
            }
            if nc != 0 {
              var lerp := Lerp(o, v, anew);
              Mdl2(true, lerp);
            } else {
              Mdl2(true, v);
            }
            if oc == 0 {
              ReplayOne(View(), last, s0);
            }
          } else {
            assert calls == [];
          }
        }
      } else {
        assert calls == [];
      }
    }

    /** Level 4: transform v by the pipeline's matrix and hand the result to the clipper. */
    method Mdl4(draw: bool, v: Vector3D)
      requires Valid() && (draw ==> primed)
      requires Projectable(ClipCalls(draw, oldPos, oldOutCode, Transform(transformation.Value(), v)))
      modifies this`xpos, this`ypos, this`lines, this`oldPos, this`oldOutCode, this`primed
      ensures Valid() && primed
      ensures oldPos == Transform(transformation.Value(), v) && oldOutCode == OutCode(oldPos)
      ensures Display() == Replay(View(), ClipCalls(draw, old(oldPos), old(oldOutCode), oldPos), old(Display()))
    {
      var t := Vectors.Multiply(transformation, v);
      Mdl3(draw, t);
    }

    /**
     * Level 4 for a point given by its three coordinates: the matrix is
     * applied to (x, y, z, 1), the fourth column being added as it is.
     */
    method Mdl4Point(draw: bool, x: real, y: real, z: real)
      requires Valid() && (draw ==> primed)
      requires Projectable(ClipCalls(draw, oldPos, oldOutCode, Transform(transformation.Value(), Vector3D(x, y, z, 1.0))))
      modifies this`xpos, this`ypos, this`lines, this`oldPos, this`oldOutCode, this`primed
      ensures Valid() && primed
      ensures oldPos == Transform(transformation.Value(), Vector3D(x, y, z, 1.0)) && oldOutCode == OutCode(oldPos)
      ensures Display() == Replay(View(), ClipCalls(draw, old(oldPos), old(oldOutCode), oldPos), old(Display()))
    {
      var t := TransformPoint(transformation, x, y, z);
      Mdl3(draw, t);
    }

    /** Move the pen to v without drawing (`moveTo`). */
    method MoveTo(v: Vector3D)
      requires Valid()
      requires Projectable(ClipCalls(false, oldPos, oldOutCode, Transform(transformation.Value(), v)))
      modifies this`xpos, this`ypos, this`lines, this`oldPos, this`oldOutCode, this`primed
      ensures Valid() && primed && lines == old(lines)
      ensures oldPos == Transform(transformation.Value(), v) && oldOutCode == OutCode(oldPos)
      ensures Display() == Replay(View(), ClipCalls(false, old(oldPos), old(oldOutCode), oldPos), old(Display()))
      ensures Pixel(xpos, ypos) == if oldOutCode == 0 then Project(View(), oldPos) else old(Pixel(xpos, ypos))
    {
      ghost var s0 := Display();
      Mdl4(false, v);
      MoveEffect(View(), old(oldPos), old(oldOutCode), oldPos, s0);
    }

    /** Draw a line from the previous point to v (`lineTo`); only the part inside the clip volume reaches the display. */
    method LineTo(v: Vector3D)
      requires Valid() && primed
      requires Projectable(ClipCalls(true, oldPos, oldOutCode, Transform(transformation.Value(), v)))
      modifies this`xpos, this`ypos, this`lines, this`oldPos, this`oldOutCode, this`primed
      ensures Valid() && primed
      ensures oldPos == Transform(transformation.Value(), v) && oldOutCode == OutCode(oldPos)
      ensures Display() == Replay(View(), ClipCalls(true, old(oldPos), old(oldOutCode), oldPos), old(Display()))
    {
      Mdl4(true, v);
    }

    /** `moveTo` for a point given by its three coordinates. */
    method MoveToPoint(x: real, y: real, z: real)
      requires Valid()
      requires Projectable(ClipCalls(false, oldPos, oldOutCode, Transform(transformation.Value(), Vector3D(x, y, z, 1.0))))
      modifies this`xpos, this`ypos, this`lines, this`oldPos, this`oldOutCode, this`primed
      ensures Valid() && primed && lines == old(lines)
      ensures oldPos == Transform(transformation.Value(), Vector3D(x, y, z, 1.0)) && oldOutCode == OutCode(oldPos)
      ensures Display() == Replay(View(), ClipCalls(false, old(oldPos), old(oldOutCode), oldPos), old(Display()))
      ensures Pixel(xpos, ypos) == if oldOutCode == 0 then Project(View(), oldPos) else old(Pixel(xpos, ypos))
    {
      ghost var s0 := Display();
      Mdl4Point(false, x, y, z);
      MoveEffect(View(), old(oldPos), old(oldOutCode), oldPos, s0);
    }

    /** `lineTo` for a point given by its three coordinates. */
    method LineToPoint(x: real, y: real, z: real)
      requires Valid() && primed
      requires Projectable(ClipCalls(true, oldPos, oldOutCode, Transform(transformation.Value(), Vector3D(x, y, z, 1.0))))
      modifies this`xpos, this`ypos, this`lines, this`oldPos, this`oldOutCode, this`primed
      ensures Valid() && primed
      ensures oldPos == Transform(transformation.Value(), Vector3D(x, y, z, 1.0)) && oldOutCode == OutCode(oldPos)
      ensures Display() == Replay(View(), ClipCalls(true, old(oldPos), old(oldOutCode), oldPos), old(Display()))
    {
      Mdl4Point(true, x, y, z);
    }
  }

  /**
   * The product of m with (x, y, z, 1), computed from the cells with the
   * fourth column added as it is.
   */
  method TransformPoint(m: Matrix3D, x: real, y: real, z: real) returns (t: Vector3D)
    requires m.Valid()
    ensures t == Transform(m.Value(), Vector3D(x, y, z, 1.0))
  {
    var a := m.a;
    t := Vector3D(
      a[0, 0] * x + a[0, 1] * y + a[0, 2] * z + a[0, 3],
      a[1, 0] * x + a[1, 1] * y + a[1, 2] * z + a[1, 3],
      a[2, 0] * x + a[2, 1] * y + a[2, 2] * z + a[2, 3],
      a[3, 0] * x + a[3, 1] * y + a[3, 2] * z + a[3, 3]);
  }

  /**
   * The narrowing loop of the clipper, for a segment from o (out-code oc) to
   * v (out-code nc) that is neither trivially accepted nor rejected: walks
   * the six planes with a one-bit mask, moving aold up or anew down to the
   * crossing of each plane the segment straddles, and stops as soon as
   * aold > anew. It reports whether it ran through all six planes, and the
   * interval [aold, anew] it was left with.
   */
  method Narrow(o: Vector3D, oc: bv8, v: Vector3D, nc: bv8) returns (visible: bool, aold: real, anew: real)
    requires oc == OutCode(o) && nc == OutCode(v)
    requires nc & oc == 0
    ensures visible <==> Interval(o, v, 0, 0.0, 1.0).Visible?
    ensures visible ==> Interval(o, v, 0, 0.0, 1.0) == Visible(aold, anew) && 0.0 <= aold <= anew <= 1.0
  {
    var mask := nc | oc;
    ghost var spec := Interval(o, v, 0, 0.0, 1.0);
    aold, anew := 0.0, 1.0;
    var m: bv8 := 1;
    var i: nat := 0;
    while i < 6
      invariant i <= 6 && m == Bit(i)
      invariant 0.0 <= aold <= anew <= 1.0
      invariant Interval(o, v, i, aold, anew) == spec
    {
      if mask & m != 0 {
        aold, anew := NarrowPlane(o, oc, v, nc, i, m, aold, anew);
        if aold > anew {
          break;
        }
      } else {
        IntervalSkip(o, v, i, aold, anew);
      }
      BitNext(i);
      m := m << 1;
      i := i + 1;
    }
    visible := i >= 6;
  }

  /**
   * One pass of the narrowing loop's body, for a plane i (mask m) that one
   * end point is outside of: the crossing is computed, and it raises aold
   * when the old point is the one outside, or lowers anew otherwise.
   */
  method NarrowPlane(o: Vector3D, oc: bv8, v: Vector3D, nc: bv8, i: nat, m: bv8, aold: real, anew: real)
    returns (lo: real, hi: real)
    requires oc == OutCode(o) && nc == OutCode(v) && nc & oc == 0
    requires i < 6 && m == Bit(i) && (nc | oc) & m != 0
    requires aold <= anew
    ensures aold <= lo && hi <= anew
    ensures oc & m == 0 ==> lo == aold
    ensures oc & m != 0 ==> hi == anew
    ensures lo > hi ==> Interval(o, v, i, aold, anew) == Hidden
    ensures lo <= hi ==> Interval(o, v, i, aold, anew) == Interval(o, v, i + 1, lo, hi)
  {
    CrossingDenominator(o, v, i);
    var alpha := Crossing(i, o, v);
    lo, hi := aold, anew;
    if oc & m != 0 {
      if lo < alpha {
        lo := alpha;
      }
    } else {
      if hi > alpha {
        hi := alpha;
      }
    }
    IntervalCross(o, v, i, aold, anew, lo, hi);
  }

  /**
   * The `switch` of the narrowing loop: the parameter at which the segment
   * from o to v crosses plane i, with plane 0 also taken for any other i.
   */
  method Crossing(i: nat, o: Vector3D, v: Vector3D) returns (r: real)
    requires Plane(i, o) != Plane(i, v)
    ensures r == Alpha(i, o, v)
  {
    if i == 1 {
      r := o.x - o.w;
      r := r / (r - (v.x - v.w));
    } else if i == 2 {
      r := o.y + o.w;
      r := r / (r - (v.y + v.w));
    } else if i == 3 {
      r := o.y - o.w;
      r := r / (r - (v.y - v.w));
    } else if i == 4 {
      r := o.z + o.w;
      r := r / (r - (v.z + v.w));
    } else if i == 5 {
      r := o.z;
      r := r / (r - v.z);
    } else {
      r := o.x + o.w;
      r := r / (r - (v.x + v.w));
    }
  }

  /** Shifting bit i left by one gives bit i + 1. */
  lemma BitNext(i: nat)
    requires i < 6
    ensures Bit(i) << 1 == Bit(i + 1)
  {
  }
}
