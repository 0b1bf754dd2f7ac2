/**
 * The value-level meaning of the lower three pipeline stages.
 *
 * Stage 1 appends a segment from the pen to a pixel when drawing and moves
 * the pen there; stage 2 maps a clipped homogeneous point to a pixel and
 * hands it to stage 1; stage 3 (the clipper) decides which stage-2 calls a
 * move or a draw to a point makes, given the previous point and its
 * out-code. The screen the line sink has drawn is a `Screen`: the pen
 * position and the segments drawn so far, in order.
 */
module Stages {
  import opened Math3D
  import opened Clip

  /** The pixel rectangle the pipeline draws into. */
  datatype Viewport = Viewport(minx: uint8, maxx: uint8, miny: uint8, maxy: uint8)

  /** A screen position; both coordinates are unsigned bytes. */
  datatype Pixel = Pixel(x: uint8, y: uint8)

  /** One call of the line sink: a line from `from` to `to`. */
  datatype Segment = Segment(from: Pixel, to: Pixel)

  /** The pen position and every segment handed to the line sink so far. */
  datatype Screen = Screen(pen: Pixel, lines: seq<Segment>)

  /** C's conversion of a float to an integer type: truncation toward zero. */
  function Trunc(r: real): (k: int)
    ensures 0.0 <= r ==> 0 <= k && k as real <= r < k as real + 1.0
    ensures r < 0.0 ==> k <= 0 && k as real - 1.0 < r <= k as real
  {
    if r >= 0.0 then r.Floor else -((-r).Floor)
  }

  /** Narrowing to an unsigned byte: the value modulo 256. */
  function Byte(k: int): (b: uint8)
    ensures 0 <= k < 256 ==> b == k
  {
    k % 256
  }

  /**
   * The offset into a span of d pixels for a coordinate q = x/w in
   * -1 .. 1: the span scaled by (1 + q)/2 and truncated.
   */
  function Offset(d: int, q: real): int
  {
    Trunc(d as real * ((1.0 + q) / 2.0))
  }

  /**
   * Stage 2's mapping of a homogeneous point to a pixel: x/w = -1 .. 1 is
   * spread over minx .. maxx, and y/w = 1 .. -1 over miny .. maxy (the y
   * axis is flipped), each sum narrowed to a byte.
   */
  function Project(view: Viewport, v: Vector3D): Pixel
    requires v.w != 0.0
  {
    Pixel(Byte(view.minx + Offset(view.maxx - view.minx, v.x / v.w)),
          Byte(view.maxy - Offset(view.maxy - view.miny, v.y / v.w)))
  }

  /** The rectangle is not inverted. */
  predicate Ordered(view: Viewport)
  {
    view.minx <= view.maxx && view.miny <= view.maxy
  }

  predicate InView(view: Viewport, p: Pixel)
  {
    view.minx <= p.x <= view.maxx && view.miny <= p.y <= view.maxy
  }

  /** Both end points of every segment lie in the rectangle. */
  predicate OnScreen(view: Viewport, lines: seq<Segment>)
  {
    forall k | 0 <= k < |lines| :: InView(view, lines[k].from) && InView(view, lines[k].to)
  }

  /** A coordinate in -1 .. 1 gives an offset within the span, -1 the first pixel and 1 the last. */
  lemma OffsetBounds(d: nat, q: real)
    requires -1.0 <= q <= 1.0
    ensures 0 <= Offset(d, q) <= d
    ensures q == -1.0 ==> Offset(d, q) == 0
    ensures q == 1.0 ==> Offset(d, q) == d
  {
    var f := (1.0 + q) / 2.0;
    assert 0.0 <= f <= 1.0;
    assert d as real * f <= d as real * 1.0;
  }

  /** A point inside the clip volume lands inside the pixel rectangle. */
  lemma ProjectInViewport(view: Viewport, v: Vector3D)
    requires OutCode(v) == 0 && v.w != 0.0
    requires Ordered(view)
    ensures InView(view, Project(view, v))
  {
    ClipVolumeAfterDivision(v);
    OffsetBounds(view.maxx - view.minx, v.x / v.w);
    OffsetBounds(view.maxy - view.miny, v.y / v.w);
  }

  /**
   * In a non-inverted rectangle the edges of the clip volume go to the edges
   * of the rectangle, with y flipped: x/w = -1 to minx, x/w = 1 to maxx,
   * y/w = 1 to miny and y/w = -1 to maxy.
   */
  lemma ProjectEdges(view: Viewport, v: Vector3D)
    requires v.w != 0.0 && Ordered(view)
    ensures v.x == -v.w ==> Project(view, v).x == view.minx
    ensures v.x == v.w ==> Project(view, v).x == view.maxx
    ensures v.y == v.w ==> Project(view, v).y == view.miny
    ensures v.y == -v.w ==> Project(view, v).y == view.maxy
  {
    var qx, qy := v.x / v.w, v.y / v.w;
    UnitQuotient(v.x, v.w);
    UnitQuotient(v.y, v.w);
    if qx == -1.0 || qx == 1.0 {
      OffsetBounds(view.maxx - view.minx, qx);
    }
    if qy == -1.0 || qy == 1.0 {
      OffsetBounds(view.maxy - view.miny, qy);
    }
  }

  lemma UnitQuotient(a: real, w: real)
    requires w != 0.0
    ensures a == w ==> a / w == 1.0
    ensures a == -w ==> a / w == -1.0
  {
  }

  /** Stage 1: draw from the pen to `to` when `draw` is set; the pen moves to `to` either way. */
  function Mdl1Step(draw: bool, to: Pixel, s: Screen): Screen
  {
    Screen(to, if draw then s.lines + [Segment(s.pen, to)] else s.lines)
  }

  /** Stage 2: project `v` and pass the pixel to stage 1. */
  function Mdl2Step(view: Viewport, draw: bool, v: Vector3D, s: Screen): Screen
    requires v.w != 0.0
  {
    Mdl1Step(draw, Project(view, v), s)
  }

  /** A call the clipper makes to stage 2. */
  datatype Mdl2Call = Mdl2Call(draw: bool, p: Vector3D)

  /** Every point passed to stage 2 can be divided by its w. */
  predicate Projectable(calls: seq<Mdl2Call>)
  {
    forall k | 0 <= k < |calls| :: calls[k].p.w != 0.0
  }

  /** The screen after the stage-2 calls `calls`, in order. */
  function Replay(view: Viewport, calls: seq<Mdl2Call>, s: Screen): Screen
    requires Projectable(calls)
    decreases |calls|
  {
    if calls == [] then s
    else Replay(view, calls[1..], Mdl2Step(view, calls[0].draw, calls[0].p, s))
  }

  lemma ReplayOne(view: Viewport, c: Mdl2Call, s: Screen)
    requires c.p.w != 0.0
    ensures Projectable([c])
    ensures Replay(view, [c], s) == Mdl2Step(view, c.draw, c.p, s)
  {
    assert [c][1..] == [];
  }

  lemma ReplayTwo(view: Viewport, c: Mdl2Call, d: Mdl2Call, s: Screen)
    requires c.p.w != 0.0 && d.p.w != 0.0
    ensures Projectable([c, d])
    ensures Replay(view, [c, d], s) == Mdl2Step(view, d.draw, d.p, Mdl2Step(view, c.draw, c.p, s))
  {
    assert [c, d][1..] == [d];
    ReplayOne(view, d, Mdl2Step(view, c.draw, c.p, s));
  }

  /**
   * Stage 3, the clipper: the stage-2 calls a move (draw = false) or a draw
   * to the clip-space point n makes, given the previous point o and the
   * out-code oc recorded for it. A move passes n on only when it is inside.
   * A draw whose end points share a violated plane does nothing; one whose
   * end points are both inside draws straight to n; otherwise the interval
   * is narrowed and, if something is left, the pen is moved to its start
   * (when o is outside) and a line drawn to its end (or to n itself when n
   * is inside).
   */
  function ClipCalls(draw: bool, o: Vector3D, oc: bv8, n: Vector3D): seq<Mdl2Call>
    requires draw ==> oc == OutCode(o)
  {
    var nc := OutCode(n);
    if !draw then
      (if nc == 0 then [Mdl2Call(false, n)] else [])
    else if nc & oc != 0 then
      []
    else if nc | oc == 0 then
      [Mdl2Call(true, n)]
    else
      match Interval(o, n, 0, 0.0, 1.0)
      case Hidden => []
      case Visible(aold, anew) =>
        (if oc != 0 then [Mdl2Call(false, Lerp(o, n, aold))] else [])
        + [Mdl2Call(true, if nc != 0 then Lerp(o, n, anew) else n)]
  }

  /**
   * The clipper only passes on points inside the clip volume, makes at most
   * two calls, and at most one that draws, which is the last; a move never
   * draws.
   */
  lemma ClipCallsInside(draw: bool, o: Vector3D, oc: bv8, n: Vector3D)
    requires draw ==> oc == OutCode(o)
    ensures var calls := ClipCalls(draw, o, oc, n);
      |calls| <= 2
      && (forall k | 0 <= k < |calls| :: OutCode(calls[k].p) == 0)
      && (forall k | 0 <= k < |calls| - 1 :: !calls[k].draw)
      && (!draw ==> forall k | 0 <= k < |calls| :: !calls[k].draw)
  {
    var nc := OutCode(n);
    var calls := ClipCalls(draw, o, oc, n);
    if !draw {
      assert calls == if nc == 0 then [Mdl2Call(false, n)] else [];
    } else if nc & oc != 0 {
      assert calls == [];
    } else if nc | oc == 0 {
      BothZero(nc, oc);
      assert calls == [Mdl2Call(true, n)];
    } else {
      assert VisiblePart(o, n) == Interval(o, n, 0, 0.0, 1.0);
      match Interval(o, n, 0, 0.0, 1.0)
      case Hidden =>
        assert calls == [];
      case Visible(aold, anew) =>
        VisiblePartExact(o, n, aold);
        VisiblePartExact(o, n, anew);
        var last := Mdl2Call(true, if nc != 0 then Lerp(o, n, anew) else n);
        assert OutCode(last.p) == 0;
        if oc != 0 {
          var first := Mdl2Call(false, Lerp(o, n, aold));
          assert calls == [first, last];
        } else {
          assert calls == [last];
        }
    }
  }

  /** The pen sits on the projection of the recorded point whenever that point is inside. */
  predicate PenAt(view: Viewport, o: Vector3D, oc: bv8, pen: Pixel)
  {
    oc == OutCode(o) && (oc == 0 ==> o.w != 0.0 && pen == Project(view, o))
  }

  /** A move draws nothing; it moves the pen to n when n is inside and leaves it alone otherwise. */
  lemma MoveEffect(view: Viewport, o: Vector3D, oc: bv8, n: Vector3D, s: Screen)
    requires Projectable(ClipCalls(false, o, oc, n))
    ensures var r := Replay(view, ClipCalls(false, o, oc, n), s);
      r.lines == s.lines && r.pen == (if OutCode(n) == 0 then Project(view, n) else s.pen)
  {
    if OutCode(n) == 0 {
      assert ClipCalls(false, o, oc, n)[0] == Mdl2Call(false, n);
      ReplayOne(view, Mdl2Call(false, n), s);
    }
  }

  /** Trivial reject: end points outside a common plane leave the screen as it was. */
  lemma TrivialReject(view: Viewport, o: Vector3D, n: Vector3D, s: Screen)
    requires OutCode(n) & OutCode(o) != 0
    ensures Projectable(ClipCalls(true, o, OutCode(o), n))
    ensures Replay(view, ClipCalls(true, o, OutCode(o), n), s) == s
  {
  }

  /** Trivial accept: both end points inside draw exactly one line, from the pen to n's projection. */
  lemma TrivialAccept(view: Viewport, o: Vector3D, n: Vector3D, s: Screen)
    requires OutCode(n) | OutCode(o) == 0 && n.w != 0.0
    ensures ClipCalls(true, o, OutCode(o), n) == [Mdl2Call(true, n)]
    ensures Projectable(ClipCalls(true, o, OutCode(o), n))
    ensures Replay(view, ClipCalls(true, o, OutCode(o), n), s)
         == Screen(Project(view, n), s.lines + [Segment(s.pen, Project(view, n))])
  {
    ReplayOne(view, Mdl2Call(true, n), s);
  }

  /**
   * What a draw adds to the screen: when the pen sits on the projection of
   * the previous point o whenever o is inside, a draw to n emits nothing if
   * no part of the segment from o to n is inside the clip volume, and
   * otherwise exactly one line, from the projection of the first visible
   * point of the segment to the projection of its last visible point.
   */
  lemma DrawEffect(view: Viewport, o: Vector3D, n: Vector3D, s: Screen)
    requires PenAt(view, o, OutCode(o), s.pen)
    requires Projectable(ClipCalls(true, o, OutCode(o), n))
    ensures var part, r := VisiblePart(o, n), Replay(view, ClipCalls(true, o, OutCode(o), n), s);
      && (part.Hidden? ==> r.lines == s.lines)
      && (part.Visible? ==>
            var a, b := Lerp(o, n, part.lo), Lerp(o, n, part.hi);
            && OutCode(a) == 0 && a.w != 0.0
            && OutCode(b) == 0 && b.w != 0.0
            && r.lines == s.lines + [Segment(Project(view, a), Project(view, b))])
  {
    var oc, nc := OutCode(o), OutCode(n);
    if nc & oc != 0 {
      TrivialReject(view, o, n, s);
    } else if nc | oc == 0 {
      DrawAccepted(view, o, n, s);
    } else {
      assert VisiblePart(o, n) == Interval(o, n, 0, 0.0, 1.0);
      DrawNarrowed(view, o, n, s);
    }
  }

  /** `DrawEffect` for two end points inside: the whole segment is visible and drawn from o to n. */
  lemma DrawAccepted(view: Viewport, o: Vector3D, n: Vector3D, s: Screen)
    requires OutCode(n) | OutCode(o) == 0
    requires PenAt(view, o, OutCode(o), s.pen)
    requires Projectable(ClipCalls(true, o, OutCode(o), n))
    ensures VisiblePart(o, n) == Visible(0.0, 1.0)
    ensures OutCode(o) == 0 && o.w != 0.0 && OutCode(n) == 0 && n.w != 0.0
    ensures Replay(view, ClipCalls(true, o, OutCode(o), n), s).lines
         == s.lines + [Segment(Project(view, o), Project(view, n))]
  {
    BothZero(OutCode(n), OutCode(o));
    assert ClipCalls(true, o, OutCode(o), n) == [Mdl2Call(true, n)];
    assert ClipCalls(true, o, OutCode(o), n)[0].p.w != 0.0;
    TrivialAccept(view, o, n, s);
  }

  lemma BothZero(a: bv8, b: bv8)
    requires a | b == 0
    ensures a == 0 && b == 0
  {
  }

  /** `DrawEffect` for a segment that crosses some plane without being trivially rejected. */
  lemma DrawNarrowed(view: Viewport, o: Vector3D, n: Vector3D, s: Screen)
    requires OutCode(n) & OutCode(o) == 0 && OutCode(n) | OutCode(o) != 0
    requires PenAt(view, o, OutCode(o), s.pen)
    requires Projectable(ClipCalls(true, o, OutCode(o), n))
    ensures Interval(o, n, 0, 0.0, 1.0).Hidden? ==>
      Replay(view, ClipCalls(true, o, OutCode(o), n), s).lines == s.lines
    ensures Interval(o, n, 0, 0.0, 1.0).Visible? ==>
      var a := Lerp(o, n, Interval(o, n, 0, 0.0, 1.0).lo);
      var b := Lerp(o, n, Interval(o, n, 0, 0.0, 1.0).hi);
      && OutCode(a) == 0 && a.w != 0.0
      && OutCode(b) == 0 && b.w != 0.0
      && Replay(view, ClipCalls(true, o, OutCode(o), n), s).lines
         == s.lines + [Segment(Project(view, a), Project(view, b))]
  {
    var calls := ClipCalls(true, o, OutCode(o), n);
    VisiblePartBounds(o, n);
    match Interval(o, n, 0, 0.0, 1.0)
    case Hidden =>
      assert calls == [];
    case Visible(lo, hi) =>
      VisiblePartExact(o, n, lo);
      VisiblePartExact(o, n, hi);
      ReplayNarrowed(view, o, n, s, lo, hi);
  }

  /** The calls a narrowed draw makes draw one line, from the point at lo to the point at hi. */
  lemma ReplayNarrowed(view: Viewport, o: Vector3D, n: Vector3D, s: Screen, lo: real, hi: real)
    requires OutCode(n) & OutCode(o) == 0 && OutCode(n) | OutCode(o) != 0
    requires Interval(o, n, 0, 0.0, 1.0) == Visible(lo, hi)
    requires OutCode(o) == 0 ==> lo == 0.0
    requires OutCode(n) == 0 ==> hi == 1.0
    requires PenAt(view, o, OutCode(o), s.pen)
    requires Projectable(ClipCalls(true, o, OutCode(o), n))
    ensures Lerp(o, n, lo).w != 0.0 && Lerp(o, n, hi).w != 0.0
    ensures Replay(view, ClipCalls(true, o, OutCode(o), n), s).lines
         == s.lines + [Segment(Project(view, Lerp(o, n, lo)), Project(view, Lerp(o, n, hi)))]
  {
    var oc, nc := OutCode(o), OutCode(n);
    var calls := ClipCalls(true, o, oc, n);
    var last := Mdl2Call(true, if nc != 0 then Lerp(o, n, hi) else n);
    if oc != 0 {
      var first := Mdl2Call(false, Lerp(o, n, lo));
      assert calls == [first, last];
      assert calls[0].p.w != 0.0 && calls[1].p.w != 0.0;
      ReplayTwo(view, first, last, s);
    } else {
      assert calls == [last];
      assert calls[0].p.w != 0.0;
      ReplayOne(view, last, s);
    }
  }

  /** After any call the pen again sits on the projection of the new point whenever that point is inside. */
  lemma PenAfter(view: Viewport, draw: bool, o: Vector3D, oc: bv8, n: Vector3D, s: Screen)
    requires draw ==> oc == OutCode(o)
    requires Projectable(ClipCalls(draw, o, oc, n))
    ensures PenAt(view, n, OutCode(n), Replay(view, ClipCalls(draw, o, oc, n), s).pen)
  {
    var nc := OutCode(n);
    var calls := ClipCalls(draw, o, oc, n);
    if nc == 0 {
      if !draw {
        MoveEffect(view, o, oc, n, s);
      } else if oc == 0 {
        assert calls == [Mdl2Call(true, n)];
        assert calls[0].p.w != 0.0;
        TrivialAccept(view, o, n, s);
      } else {
        VisiblePartBounds(o, n);
        match Interval(o, n, 0, 0.0, 1.0)
        case Visible(lo, hi) =>
          var first := Mdl2Call(false, Lerp(o, n, lo));
          var last := Mdl2Call(true, n);
          assert calls == [first, last];
          assert calls[0].p.w != 0.0 && calls[1].p.w != 0.0;
          ReplayTwo(view, first, last, s);
      }
    }
  }

  /**
   * Both end points in front of the eye (w > 0) make every point the
   * clipper passes on divisible by its w.
   */
  lemma ProjectableInFront(draw: bool, o: Vector3D, oc: bv8, n: Vector3D)
    requires draw ==> oc == OutCode(o)
    requires n.w > 0.0 && (draw ==> o.w > 0.0)
    ensures Projectable(ClipCalls(draw, o, oc, n))
  {
    var nc := OutCode(n);
    if draw && nc & oc == 0 && nc | oc != 0 {
      VisiblePartBounds(o, n);
      match Interval(o, n, 0, 0.0, 1.0)
      case Hidden =>
      case Visible(lo, hi) =>
        LerpInFront(o, n, lo);
        LerpInFront(o, n, hi);
    }
  }

  lemma LerpInFront(o: Vector3D, n: Vector3D, t: real)
    requires o.w > 0.0 && n.w > 0.0 && 0.0 <= t <= 1.0
    ensures Lerp(o, n, t).w > 0.0
  {
    var a := 1.0 - t;
    assert Lerp(o, n, t).w == a * o.w + t * n.w;
    if t < 1.0 {
      PositiveWeights(a, o.w, t, n.w);
    } else {
      assert Lerp(o, n, t) == n;
    }
  }

  lemma PositiveWeights(a: real, p: real, b: real, q: real)
    requires a > 0.0 && p > 0.0 && b >= 0.0 && q > 0.0
    ensures a * p + b * q > 0.0
  {
    assert a * p > 0.0;
    assert b * q >= 0.0;
  }

  /**
   * Everything the clipper draws stays inside a non-inverted rectangle:
   * when the segments so far are on screen and the pen sits on the
   * projection of the previous point whenever that point is inside, the
   * segments after the call are on screen too.
   */
  lemma ClipKeepsOnScreen(view: Viewport, draw: bool, o: Vector3D, oc: bv8, n: Vector3D, s: Screen)
    requires Ordered(view)
    requires draw ==> PenAt(view, o, oc, s.pen)
    requires Projectable(ClipCalls(draw, o, oc, n))
    requires OnScreen(view, s.lines)
    ensures OnScreen(view, Replay(view, ClipCalls(draw, o, oc, n), s).lines)
  {
    if !draw {
      MoveEffect(view, o, oc, n, s);
    } else {
      DrawEffect(view, o, n, s);
      var part := VisiblePart(o, n);
      if part.Visible? {
        ProjectInViewport(view, Lerp(o, n, part.lo));
        ProjectInViewport(view, Lerp(o, n, part.hi));
      }
    }
  }
}
