/**
 * The clipping arithmetic of the pipeline: the six-bit out-code of a
 * homogeneous point, the interpolation between two points, and the
 * Liang-Barsky narrowing of the parameter interval [aold, anew] along a
 * segment whose end points do not share a violated plane.
 *
 * The main results are that the narrowed interval is exactly the set of
 * parameters t in [0, 1] at which the segment lies inside the clip volume
 * (`VisiblePartExact`), and that the division the narrowing performs never
 * has a zero denominator (`CrossingDenominator`).
 */
module Clip {
  import opened Math3D

  /** Bit i of an out-code. */
  function Bit(i: nat): bv8
    requires i < 8
  {
    (1 as bv8) << i
  }

  /**
   * The clip volume: -w <= x <= w, -w <= y <= w and -w <= z <= 0; after
   * division by a positive w, the box [-1, 1] x [-1, 1] x [-1, 0].
   */
  predicate InClipVolume(v: Vector3D)
  {
    -v.w <= v.x <= v.w && -v.w <= v.y <= v.w && -v.w <= v.z <= 0.0
  }

  /**
   * Out-code of a point: bit 0 for x < -w, bit 1 for x > w, bit 2 for
   * y < -w, bit 3 for y > w, bit 4 for z < -w and bit 5 for z > 0.
   */
  function OutCode(v: Vector3D): (r: bv8)
    ensures r < 64
    ensures r == 0 <==> InClipVolume(v)
    ensures r == 0 ==> v.w >= 0.0
  {
    (if v.x < -v.w then 1 else 0)
    | (if v.x > v.w then 2 else 0)
    | (if v.y < -v.w then 4 else 0)
    | (if v.y > v.w then 8 else 0)
    | (if v.z < -v.w then 16 else 0)
    | (if v.z > 0.0 then 32 else 0)
  }

  /**
   * The signed function whose zero set is clipping plane i: x + w, x - w,
   * y + w, y - w, z + w and z for planes 0 to 5; any other index falls back
   * on plane 0, as the clipper's `switch` does with its default label.
   */
  function Plane(i: nat, p: Vector3D): real
  {
    match i
    case 1 => p.x - p.w
    case 2 => p.y + p.w
    case 3 => p.y - p.w
    case 4 => p.z + p.w
    case 5 => p.z
    case _ => p.x + p.w
  }

  /** Plane i's function oriented so that the visible side is where it is >= 0. */
  function Inward(i: nat, p: Vector3D): real
  {
    if i % 2 == 0 then Plane(i, p) else -Plane(i, p)
  }

  /** The point lies strictly on the invisible side of plane i. */
  predicate Outside(i: nat, p: Vector3D)
  {
    Inward(i, p) < 0.0
  }

  /** Each bit of the out-code is set exactly when its point is outside that bit's plane. */
  lemma OutCodeBit(v: Vector3D, i: nat)
    requires i < 6
    ensures OutCode(v) & Bit(i) != 0 <==> Outside(i, v)
  {
    var r := OutCode(v);
    if i == 0 {
      assert r & 1 != 0 <==> v.x < -v.w;
    } else if i == 1 {
      assert r & 2 != 0 <==> v.x > v.w;
    } else if i == 2 {
      assert r & 4 != 0 <==> v.y < -v.w;
    } else if i == 3 {
      assert r & 8 != 0 <==> v.y > v.w;
    } else if i == 4 {
      assert r & 16 != 0 <==> v.z < -v.w;
    } else {
      assert r & 32 != 0 <==> v.z > 0.0;
    }
  }

  /** A zero out-code means inside all six planes, and conversely. */
  lemma OutCodeZero(v: Vector3D)
    ensures OutCode(v) == 0 <==> forall i | 0 <= i < 6 :: !Outside(i, v)
  {
    if OutCode(v) != 0 {
      var i := SetBit(OutCode(v));
      OutCodeBit(v, i);
    } else {
      forall i | 0 <= i < 6
        ensures !Outside(i, v)
      {
        OutCodeBit(v, i);
      }
    }
  }

  /** A non-zero out-code has one of its six bits set. */
  lemma SetBit(c: bv8) returns (i: nat)
    requires c != 0 && c < 64
    ensures i < 6 && c & Bit(i) != 0
  {
    if c & 1 != 0 { i := 0; }
    else if c & 2 != 0 { i := 1; }
    else if c & 4 != 0 { i := 2; }
    else if c & 8 != 0 { i := 3; }
    else if c & 16 != 0 { i := 4; }
    else { i := 5; }
  }

  /** For a positive w, the clip volume is the box [-1, 1] x [-1, 1] x [-1, 0] after division by w. */
  lemma ClipVolumeAfterDivision(v: Vector3D)
    requires v.w > 0.0
    ensures InClipVolume(v)
        <==> -1.0 <= v.x / v.w <= 1.0 && -1.0 <= v.y / v.w <= 1.0 && -1.0 <= v.z / v.w <= 0.0
  {
    DividedBounds(v.x, v.w);
    DividedBounds(v.y, v.w);
    DividedBounds(v.z, v.w);
  }

  lemma DividedBounds(a: real, w: real)
    requires w > 0.0
    ensures -w <= a <==> -1.0 <= a / w
    ensures a <= w <==> a / w <= 1.0
    ensures a <= 0.0 <==> a / w <= 0.0
  {
    var q := a / w;
    assert a == q * w;
    PositiveFactor(q + 1.0, w);
    PositiveFactor(1.0 - q, w);
    PositiveFactor(-q, w);
  }

  lemma PositiveFactor(x: real, w: real)
    requires w > 0.0
    ensures x * w >= 0.0 <==> x >= 0.0
  {
    if x < 0.0 {
      assert x * w < 0.0;
    }
  }

  /** The point at parameter alpha on the segment from a (alpha = 0) to b (alpha = 1). */
  function Lerp(a: Vector3D, b: Vector3D, alpha: real): (r: Vector3D)
    ensures alpha == 0.0 ==> r == a
    ensures alpha == 1.0 ==> r == b
  {
    var a1 := 1.0 - alpha;
    Vector3D(a1 * a.x + alpha * b.x, a1 * a.y + alpha * b.y, a1 * a.z + alpha * b.z, a1 * a.w + alpha * b.w)
  }

  /** Plane functions are linear along a segment. */
  lemma PlaneOfLerp(i: nat, a: Vector3D, b: Vector3D, t: real)
    ensures Plane(i, Lerp(a, b, t)) == (1.0 - t) * Plane(i, a) + t * Plane(i, b)
    ensures Inward(i, Lerp(a, b, t)) == (1.0 - t) * Inward(i, a) + t * Inward(i, b)
  {
    match i {
      case 1 => MixSum(t, a.x, b.x, -a.w, -b.w);
      case 2 => MixSum(t, a.y, b.y, a.w, b.w);
      case 3 => MixSum(t, a.y, b.y, -a.w, -b.w);
      case 4 => MixSum(t, a.z, b.z, a.w, b.w);
      case 5 =>
      case _ => MixSum(t, a.x, b.x, a.w, b.w);
    }
    MixNegated(t, Plane(i, a), Plane(i, b));
  }

  /** Mixing with weights 1 - t and t commutes with a sum. */
  lemma MixSum(t: real, p: real, q: real, r: real, u: real)
    ensures ((1.0 - t) * p + t * q) + ((1.0 - t) * r + t * u) == (1.0 - t) * (p + r) + t * (q + u)
    ensures ((1.0 - t) * p + t * q) - ((1.0 - t) * -r + t * -u) == (1.0 - t) * (p + r) + t * (q + u)
  {
  }

  /** Mixing with weights 1 - t and t commutes with negation. */
  lemma MixNegated(t: real, p: real, q: real)
    ensures -((1.0 - t) * p + t * q) == (1.0 - t) * -p + t * -q
  {
  }

  /** The parameter at which the segment from o to n crosses plane i. */
  function Alpha(i: nat, o: Vector3D, n: Vector3D): real
    requires Plane(i, o) != Plane(i, n)
  {
    Plane(i, o) / (Plane(i, o) - Plane(i, n))
  }

  /** The point at parameter `Alpha` lies on the plane. */
  lemma AlphaOnPlane(i: nat, o: Vector3D, n: Vector3D)
    requires Plane(i, o) != Plane(i, n)
    ensures Plane(i, Lerp(o, n, Alpha(i, o, n))) == 0.0
  {
    var po, pn := Plane(i, o), Plane(i, n);
    var alpha := Alpha(i, o, n);
    PlaneOfLerp(i, o, n, alpha);
    MixAtCrossing(po, pn);
  }

  /** Mixing two different values with weight p / (p - q) on q gives zero. */
  lemma MixAtCrossing(p: real, q: real)
    requires p != q
    ensures (1.0 - p / (p - q)) * p + p / (p - q) * q == 0.0
  {
    var alpha := p / (p - q);
    assert alpha * (p - q) == p;
    assert (1.0 - alpha) * p + alpha * q == p - alpha * (p - q);
  }

  /** `Alpha` computed from the oriented plane function is the same number. */
  lemma AlphaInward(i: nat, o: Vector3D, n: Vector3D)
    requires Plane(i, o) != Plane(i, n)
    ensures Inward(i, o) != Inward(i, n)
    ensures Alpha(i, o, n) == Inward(i, o) / (Inward(i, o) - Inward(i, n))
  {
    var po, pn := Plane(i, o), Plane(i, n);
    if i % 2 != 0 {
      assert -po / (-po - -pn) == po / (po - pn);
    }
  }

  /** Entering a plane: the visible side is reached exactly from the crossing parameter on. */
  lemma Entering(go: real, gn: real, t: real)
    requires go < 0.0 <= gn
    ensures (1.0 - t) * go + t * gn >= 0.0 <==> t >= go / (go - gn)
  {
    var d := gn - go;
    var alpha := go / (go - gn);
    assert alpha * d == -go;
    assert (1.0 - t) * go + t * gn == go + t * d;
    assert (t - alpha) * d == t * d + go;
    if t >= alpha {
      assert (t - alpha) * d >= 0.0;
    } else {
      assert (t - alpha) * d < 0.0;
    }
  }

  /** Leaving a plane: the visible side is kept exactly up to the crossing parameter. */
  lemma Leaving(go: real, gn: real, t: real)
    requires gn < 0.0 <= go
    ensures (1.0 - t) * go + t * gn >= 0.0 <==> t <= go / (go - gn)
  {
    var d := go - gn;
    var alpha := go / (go - gn);
    assert alpha * d == go;
    assert (1.0 - t) * go + t * gn == go - t * d;
    assert (alpha - t) * d == go - t * d;
    if t <= alpha {
      assert (alpha - t) * d >= 0.0;
    } else {
      assert (alpha - t) * d < 0.0;
    }
  }

  /** Between two points on the visible side of a plane, the segment stays on it. */
  lemma BothInside(go: real, gn: real, t: real)
    requires go >= 0.0 && gn >= 0.0 && 0.0 <= t <= 1.0
    ensures (1.0 - t) * go + t * gn >= 0.0
  {
    assert (1.0 - t) * go >= 0.0;
    assert t * gn >= 0.0;
  }

  /** Between two points strictly outside a plane, the segment stays outside it. */
  lemma BothOutside(go: real, gn: real, t: real)
    requires go < 0.0 && gn < 0.0 && 0.0 <= t <= 1.0
    ensures (1.0 - t) * go + t * gn < 0.0
  {
    if t < 1.0 {
      assert (1.0 - t) * go < 0.0;
      assert t * gn <= 0.0;
    }
  }

  /**
   * When plane i's bit is in exactly one of the two out-codes, the plane
   * function differs at the two end points, so the division in `Alpha` is
   * well defined.
   */
  lemma CrossingDenominator(o: Vector3D, n: Vector3D, i: nat)
    requires i < 6
    requires (OutCode(n) | OutCode(o)) & Bit(i) != 0
    requires OutCode(n) & OutCode(o) == 0
    ensures Plane(i, o) != Plane(i, n)
    ensures Outside(i, o) != Outside(i, n)
  {
    OutCodeBit(o, i);
    OutCodeBit(n, i);
    var b, co, cn := Bit(i), OutCode(o), OutCode(n);
    assert b == 1 || b == 2 || b == 4 || b == 8 || b == 16 || b == 32;
    assert (co & b != 0) != (cn & b != 0);
  }

  /** The result of clipping: nothing visible, or the visible parameter interval. */
  datatype Span = Hidden | Visible(lo: real, hi: real)

  /**
   * The narrowing loop, from plane i on, with the current interval
   * [aold, anew]: a plane whose bit is in either out-code is crossed at
   * `Alpha`; if the old point is outside it, the crossing raises aold,
   * otherwise it lowers anew; the segment is hidden as soon as aold > anew.
   */
  function Interval(o: Vector3D, n: Vector3D, i: nat, aold: real, anew: real): (r: Span)
    requires i <= 6 && aold <= anew
    requires OutCode(n) & OutCode(o) == 0
    ensures r.Visible? ==> aold <= r.lo <= r.hi <= anew
    ensures r.Visible? && OutCode(o) == 0 ==> r.lo == aold
    ensures r.Visible? && OutCode(n) == 0 ==> r.hi == anew
    decreases 6 - i
  {
    if i == 6 then
      Visible(aold, anew)
    else if (OutCode(n) | OutCode(o)) & Bit(i) == 0 then
      Interval(o, n, i + 1, aold, anew)
    else
      CrossingDenominator(o, n, i);
      var alpha := Alpha(i, o, n);
      var entering := OutCode(o) & Bit(i) != 0;
      var lo := if entering && aold < alpha then alpha else aold;
      var hi := if !entering && anew > alpha then alpha else anew;
      if lo > hi then Hidden else Interval(o, n, i + 1, lo, hi)
  }

  /** A plane neither end point is outside of leaves the interval as it is. */
  lemma IntervalSkip(o: Vector3D, n: Vector3D, i: nat, aold: real, anew: real)
    requires i < 6 && aold <= anew
    requires OutCode(n) & OutCode(o) == 0
    requires (OutCode(n) | OutCode(o)) & Bit(i) == 0
    ensures Interval(o, n, i, aold, anew) == Interval(o, n, i + 1, aold, anew)
  {
  }

  /**
   * A plane one end point is outside of moves aold up to its crossing (the
   * old point is outside) or anew down to it (the new point is outside);
   * the interval is empty once lo > hi.
   */
  lemma IntervalCross(o: Vector3D, n: Vector3D, i: nat, aold: real, anew: real, lo: real, hi: real)
    requires i < 6 && aold <= anew
    requires OutCode(n) & OutCode(o) == 0
    requires (OutCode(n) | OutCode(o)) & Bit(i) != 0
    requires Plane(i, o) != Plane(i, n)
    requires lo == if OutCode(o) & Bit(i) != 0 && aold < Alpha(i, o, n) then Alpha(i, o, n) else aold
    requires hi == if OutCode(o) & Bit(i) == 0 && anew > Alpha(i, o, n) then Alpha(i, o, n) else anew
    ensures lo > hi ==> Interval(o, n, i, aold, anew) == Hidden
    ensures lo <= hi ==> Interval(o, n, i, aold, anew) == Interval(o, n, i + 1, lo, hi)
  {
  }

  /**
   * The part of the segment from o to n that the clipper keeps: nothing
   * when both end points are outside one plane, the whole segment when both
   * are inside the clip volume, the narrowed interval otherwise.
   */
  function VisiblePart(o: Vector3D, n: Vector3D): Span
  {
    if OutCode(n) & OutCode(o) != 0 then Hidden
    else if OutCode(n) | OutCode(o) == 0 then Visible(0.0, 1.0)
    else Interval(o, n, 0, 0.0, 1.0)
  }

  /**
   * p stands for the point at t on the segment from o to n, as far as the
   * plane functions can tell.
   */
  ghost predicate OnSegment(o: Vector3D, n: Vector3D, t: real, p: Vector3D)
  {
    forall j: nat :: Inward(j, p) == (1.0 - t) * Inward(j, o) + t * Inward(j, n)
  }

  lemma LerpOnSegment(o: Vector3D, n: Vector3D, t: real)
    ensures OnSegment(o, n, t, Lerp(o, n, t))
  {
    forall j: nat
      ensures Inward(j, Lerp(o, n, t)) == (1.0 - t) * Inward(j, o) + t * Inward(j, n)
    {
      PlaneOfLerp(j, o, n, t);
    }
  }

  /**
   * On a plane whose bit is in exactly one out-code, the point at t is on
   * the visible side exactly from the crossing on (old point outside) or
   * exactly up to it (old point inside).
   */
  lemma CrossingSide(o: Vector3D, n: Vector3D, i: nat, t: real, p: Vector3D)
    requires i < 6
    requires (OutCode(n) | OutCode(o)) & Bit(i) != 0
    requires OutCode(n) & OutCode(o) == 0
    requires OnSegment(o, n, t, p)
    ensures Plane(i, o) != Plane(i, n)
    ensures OutCode(o) & Bit(i) != 0 ==> (!Outside(i, p) <==> t >= Alpha(i, o, n))
    ensures OutCode(o) & Bit(i) == 0 ==> (!Outside(i, p) <==> t <= Alpha(i, o, n))
  {
    CrossingDenominator(o, n, i);
    OutCodeBit(o, i);
    assert Inward(i, p) == (1.0 - t) * Inward(i, o) + t * Inward(i, n);
    CrossingSideAt(o, n, i, t, p);
  }

  lemma CrossingSideAt(o: Vector3D, n: Vector3D, i: nat, t: real, p: Vector3D)
    requires Plane(i, o) != Plane(i, n)
    requires Outside(i, o) != Outside(i, n)
    requires Inward(i, p) == (1.0 - t) * Inward(i, o) + t * Inward(i, n)
    ensures Outside(i, o) ==> (!Outside(i, p) <==> t >= Alpha(i, o, n))
    ensures !Outside(i, o) ==> (!Outside(i, p) <==> t <= Alpha(i, o, n))
  {
    AlphaInward(i, o, n);
    var go, gn := Inward(i, o), Inward(i, n);
    assert Alpha(i, o, n) == go / (go - gn);
    assert !Outside(i, p) <==> (1.0 - t) * go + t * gn >= 0.0;
    if Outside(i, o) {
      assert go < 0.0 <= gn;
      Entering(go, gn, t);
    } else {
      assert gn < 0.0 <= go;
      Leaving(go, gn, t);
    }
  }

  /** On a plane whose bit is in neither out-code, the whole segment is on the visible side. */
  lemma BetweenSide(o: Vector3D, n: Vector3D, i: nat, t: real, p: Vector3D)
    requires i < 6 && 0.0 <= t <= 1.0
    requires (OutCode(n) | OutCode(o)) & Bit(i) == 0
    requires OnSegment(o, n, t, p)
    ensures !Outside(i, p)
  {
    OrClear(OutCode(n), OutCode(o), Bit(i));
    OutCodeBit(o, i);
    OutCodeBit(n, i);
    assert !Outside(i, o) && !Outside(i, n);
    assert Inward(i, p) == (1.0 - t) * Inward(i, o) + t * Inward(i, n);
    BothInside(Inward(i, o), Inward(i, n), t);
    assert Inward(i, p) >= 0.0;
  }

  /** A bit clear in the union of two out-codes is clear in each. */
  lemma OrClear(a: bv8, b: bv8, m: bv8)
    requires (a | b) & m == 0
    ensures a & m == 0 && b & m == 0
  {
  }

  /** Every parameter of the narrowed interval gives a point inside planes i to 5. */
  lemma {:induction false} IntervalSound(o: Vector3D, n: Vector3D, i: nat, aold: real, anew: real, t: real, p: Vector3D)
    requires i <= 6 && 0.0 <= aold <= anew <= 1.0
    requires OutCode(n) & OutCode(o) == 0
    requires OnSegment(o, n, t, p)
    requires Interval(o, n, i, aold, anew).Visible?
    requires Interval(o, n, i, aold, anew).lo <= t <= Interval(o, n, i, aold, anew).hi
    ensures forall j | i <= j < 6 :: !Outside(j, p)
    decreases 6 - i
  {
    if i < 6 {
      if (OutCode(n) | OutCode(o)) & Bit(i) == 0 {
        IntervalSkip(o, n, i, aold, anew);
        BetweenSide(o, n, i, t, p);
        IntervalSound(o, n, i + 1, aold, anew, t, p);
        assert !Outside(i, p);
      } else {
        CrossingSide(o, n, i, t, p);
        var alpha := Alpha(i, o, n);
        var entering := OutCode(o) & Bit(i) != 0;
        var lo := if entering && aold < alpha then alpha else aold;
        var hi := if !entering && anew > alpha then alpha else anew;
        IntervalCross(o, n, i, aold, anew, lo, hi);
        IntervalSound(o, n, i + 1, lo, hi, t, p);
        assert !Outside(i, p);
      }
      forall j | i <= j < 6
        ensures !Outside(j, p)
      {
        if j == i {
        }
      }
    }
  }

  /** A parameter of the current interval whose point is inside planes i to 5 survives the narrowing. */
  lemma {:induction false} IntervalComplete(o: Vector3D, n: Vector3D, i: nat, aold: real, anew: real, t: real, p: Vector3D)
    requires i <= 6 && aold <= t <= anew
    requires OutCode(n) & OutCode(o) == 0
    requires OnSegment(o, n, t, p)
    requires forall j | i <= j < 6 :: !Outside(j, p)
    ensures Interval(o, n, i, aold, anew).Visible?
    ensures Interval(o, n, i, aold, anew).lo <= t <= Interval(o, n, i, aold, anew).hi
    decreases 6 - i
  {
    if i < 6 {
      if (OutCode(n) | OutCode(o)) & Bit(i) == 0 {
        IntervalSkip(o, n, i, aold, anew);
        IntervalComplete(o, n, i + 1, aold, anew, t, p);
      } else {
        CrossingSide(o, n, i, t, p);
        var alpha := Alpha(i, o, n);
        var entering := OutCode(o) & Bit(i) != 0;
        var lo := if entering && aold < alpha then alpha else aold;
        var hi := if !entering && anew > alpha then alpha else anew;
        IntervalCross(o, n, i, aold, anew, lo, hi);
        IntervalComplete(o, n, i + 1, lo, hi, t, p);
      }
    }
  }

  /** Two out-codes that share a bit share one of the six plane bits. */
  lemma CommonBit(co: bv8, cn: bv8) returns (i: nat)
    requires cn & co != 0 && co < 64 && cn < 64
    ensures i < 6 && co & Bit(i) != 0 && cn & Bit(i) != 0
  {
    i := SetBit(cn & co);
    assert Bit(i) == 1 || Bit(i) == 2 || Bit(i) == 4 || Bit(i) == 8 || Bit(i) == 16 || Bit(i) == 32;
  }

  /**
   * Exactness of the clipper: for every t in [0, 1], the point at t on the
   * segment from o to n is inside the clip volume if and only if the
   * clipper keeps an interval and t lies in it.
   */
  lemma VisiblePartExact(o: Vector3D, n: Vector3D, t: real)
    requires 0.0 <= t <= 1.0
    ensures OutCode(Lerp(o, n, t)) == 0
        <==> VisiblePart(o, n).Visible? && VisiblePart(o, n).lo <= t <= VisiblePart(o, n).hi
  {
    if OutCode(n) & OutCode(o) != 0 {
      SharedPlaneHidden(o, n, t);
    } else if OutCode(n) | OutCode(o) == 0 {
      BothInsideVisible(o, n, t);
    } else {
      var p := Lerp(o, n, t);
      LerpOnSegment(o, n, t);
      OutCodeZero(p);
      if OutCode(p) == 0 {
        IntervalComplete(o, n, 0, 0.0, 1.0, t, p);
      }
      if VisiblePart(o, n).Visible? && VisiblePart(o, n).lo <= t <= VisiblePart(o, n).hi {
        IntervalSound(o, n, 0, 0.0, 1.0, t, p);
      }
    }
  }

  /** Two end points outside one common plane: no point of the segment is inside the clip volume. */
  lemma SharedPlaneHidden(o: Vector3D, n: Vector3D, t: real)
    requires 0.0 <= t <= 1.0
    requires OutCode(n) & OutCode(o) != 0
    ensures OutCode(Lerp(o, n, t)) != 0
  {
    var j := CommonBit(OutCode(o), OutCode(n));
    OutCodeBit(o, j);
    OutCodeBit(n, j);
    var p := Lerp(o, n, t);
    PlaneOfLerp(j, o, n, t);
    BothOutside(Inward(j, o), Inward(j, n), t);
    assert Outside(j, p);
    OutCodeZero(p);
  }

  /** Two end points inside the clip volume: the whole segment is. */
  lemma BothInsideVisible(o: Vector3D, n: Vector3D, t: real)
    requires 0.0 <= t <= 1.0
    requires OutCode(n) | OutCode(o) == 0
    ensures OutCode(Lerp(o, n, t)) == 0
  {
    var p := Lerp(o, n, t);
    LerpOnSegment(o, n, t);
    forall j | 0 <= j < 6
      ensures !Outside(j, p)
    {
      BetweenSide(o, n, j, t, p);
    }
    OutCodeZero(p);
  }

  /** The kept interval lies in [0, 1]; it starts at 0 when o is inside and ends at 1 when n is inside. */
  lemma VisiblePartBounds(o: Vector3D, n: Vector3D)
    ensures VisiblePart(o, n).Visible? ==> 0.0 <= VisiblePart(o, n).lo <= VisiblePart(o, n).hi <= 1.0
    ensures OutCode(o) == 0 ==> VisiblePart(o, n).Visible? && VisiblePart(o, n).lo == 0.0
    ensures OutCode(n) == 0 ==> VisiblePart(o, n).Visible? && VisiblePart(o, n).hi == 1.0
  {
    if OutCode(o) == 0 {
      VisiblePartExact(o, n, 0.0);
    }
    if OutCode(n) == 0 {
      VisiblePartExact(o, n, 1.0);
    }
  }
}
