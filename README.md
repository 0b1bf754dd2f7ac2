# Demo3D rendering pipeline, modelled in Dafny

This project models the 3D line-drawing pipeline of the Demo3D sketch for the
Arduboy. The sketch keeps a 4x4 transformation matrix (`Matrix3D`) and
homogeneous points (`Vector3D`). It draws with a four-level move/draw pipeline
(`Pipeline`):

- level 4 (`mdl4`) multiplies a point by the pipeline's matrix;
- level 3 (`mdl3`) clips it against the clip volume -w <= x, y <= w,
  -w <= z <= 0. It uses a six-bit out-code and Cohen–Sutherland trivial
  accept/reject. Every other segment goes through a Liang–Barsky narrowing
  of the parameter interval [aold, anew];
- level 2 (`mdl2`) maps the clipped point to a pixel of the viewport
  rectangle, with y flipped;
- level 1 (`mdl1`) draws a line from the pen to that pixel and moves the pen.

The project has six files:

- `math3d.dfy` (module `Math3D`) holds the reference algebra: points and
  4x4 matrices as values. It has the factory matrices, the matrix product and
  the matrix-vector product, with their laws. The laws include the identity,
  chaining of products, what each factory matrix does to a point, and that a
  rotation preserves length.
- `matrix3d.dfy` (module `Matrices`) defines the class `Matrix3D`, whose cells
  are an `array2<real>` overwritten in place. Each setter and the in-place
  `Multiply` is proved to leave the matrix the reference algebra prescribes.
- `vector3d.dfy` (module `Vectors`) is `Vector3D::multiply`, a method that
  reads the cells and returns the product.
- `clip.dfy` (module `Clip`) holds the out-code, the plane functions, `Lerp`
  and the crossing parameter. It also defines `Interval`, the narrowing as a
  recursive function over the six planes. The main theorem is
  `VisiblePartExact`: a point of the segment is inside the clip volume
  exactly when its parameter lies in the narrowed interval. The clipper's
  divisions never have a zero denominator (`CrossingDenominator`).
- `stages.dfy` (module `Stages`) gives the value-level meaning of levels 1–3.
  - The display is a `Screen`: the pen and the segments drawn so far.
  - Level 3 is described by the list of level-2 calls it makes (`ClipCalls`),
    replayed on the screen (`Replay`).
  - The lemmas say what a move and a draw do to the screen, and that nothing
    is drawn outside the viewport.
- `pipeline.dfy` (module `Rendering`) defines the class `Pipeline` with the
  source's fields. Its methods `Mdl1`–`Mdl4`, `MoveTo`/`LineTo` and the
  narrowing loop `Narrow` are proved against the `Stages` functions. The
  display's line primitive becomes the ghost field `lines`, the record of
  every segment handed to it.

Coordinates are `real`. The C++ `float`/`double` arithmetic is not modelled.

## Model

| member | source | states |
|---|---|---|
| Matrices.Matrix3D.constructor | Demo3D/matrix3d.cpp:21-24 | a new matrix holds the identity |
| Matrices.Matrix3D.SetIdentity | Demo3D/matrix3d.cpp:37-44 | afterwards every cell is 1 on the diagonal and 0 elsewhere, whatever the cells held before (so calling it twice gives the same matrix) |
| Matrices.Matrix3D.SetTranslate | Demo3D/matrix3d.cpp:51-57 | the matrix is the identity with column 3 of rows 0–2 set to (x, y, z) |
| Matrices.Matrix3D.SetScale | Demo3D/matrix3d.cpp:64-70 | the matrix is diagonal (x, y, z, 1) |
| Matrices.Matrix3D.SetUniformScale | Demo3D/matrix3d.cpp:77-83 | the one-argument scale gives the same matrix as the three-argument scale with s, s, s |
| Matrices.Matrix3D.SetRotate | Demo3D/matrix3d.cpp:90-118 | the matrix is the rotation block for the axis: exactly the four listed cells are set from c and s. Any other axis leaves the identity |
| Matrices.Matrix3D.SetPerspective | Demo3D/matrix3d.cpp:125-135 | the matrix is the perspective matrix: fov/aspect, fov, 0, 0 on the diagonal, -1 at (2,3), -near at (3,2), and 0 in every other cell |
| Matrices.Matrix3D.Multiply | Demo3D/matrix3d.cpp:154-175 | in-place composition: the new matrix is the product of the old matrix with m, and m is unchanged. The loop invariant keeps finished rows at their product entries and later rows at their old cells |
| Matrices.Matrix3D.RowTimesMatrix | Demo3D/matrix3d.cpp:163-169 | the buffer receives row i of the product, each entry the running sum over k of a[i][k] * m.a[k][j] |
| Matrices.Matrix3D.CopyRow | Demo3D/matrix3d.cpp:171-173 | row i receives the buffer and every other row keeps its cells |
| Matrices.PartialEntryComplete | Demo3D/matrix3d.cpp:164-168 | after the four-step accumulation the running sum is the product's entry |
| Math3D.ProductIdentityRight | Demo3D/matrix3d.cpp:154-175 | multiplying a matrix by the identity leaves it unchanged |
| Math3D.ProductIdentityLeft | Demo3D/matrix3d.cpp:154-175 | the identity multiplied by m is m |
| Math3D.TransformIdentity | Demo3D/vector3d.cpp:25-28 | transforming by the identity gives the point back |
| Math3D.TransformProduct | Demo3D/vector3d.cpp:25-28 | chaining: transforming by a * b is transforming by b, then by a |
| Math3D.TransformTranslation | Demo3D/matrix3d.cpp:51-57 | a translation adds (x, y, z) scaled by w and keeps w |
| Math3D.TransformScaling | Demo3D/matrix3d.cpp:64-70 | a scaling multiplies x, y and z by their factors and keeps w |
| Math3D.RotationKeepsRow3Column3 | Demo3D/matrix3d.cpp:96-117 | row 3 and column 3 of every rotation are those of the identity |
| Math3D.RotationByZero | Demo3D/matrix3d.cpp:90-118 | a rotation with cosine 1 and sine 0 is the identity, on every axis |
| Math3D.TransformRotation | Demo3D/matrix3d.cpp:96-117 | about x a rotation turns (y, z), about y it turns (z, x), about z it turns (y, x); any other axis leaves the point |
| Math3D.RotationPreservesLength | Demo3D/matrix3d.cpp:90-118 | when c*c + s*s = 1, every rotation keeps w and the squared length of (x, y, z) |
| Math3D.TransformPerspective | Demo3D/matrix3d.cpp:125-135 | after the perspective matrix, z is -w and w is -near * z |
| Vectors.Multiply | Demo3D/vector3d.cpp:23-29 | each component of the result is the matching row of m dotted with (x, y, z, w), i.e. the product m * v |
| Clip.OutCode | Demo3D/pipeline.cpp:72-84 | the out-code is below 64; it is zero exactly when the point is in the clip volume, and then w >= 0 |
| Clip.OutCodeBit | Demo3D/pipeline.cpp:76-81 | bit i is set exactly when the point is outside plane i (1: x < -w, 2: x > w, 4: y < -w, 8: y > w, 16: z < -w, 32: z > 0) |
| Clip.OutCodeZero | Demo3D/pipeline.cpp:72-84 | a zero out-code is the same as being inside all six planes |
| Clip.ClipVolumeAfterDivision | Demo3D/pipeline.h:75-82 | for w > 0 the clip volume is the box [-1, 1] x [-1, 1] x [-1, 0] after division by w |
| Clip.Lerp | Demo3D/pipeline.cpp:86-93 | the interpolated point is a at alpha 0 and b at alpha 1 |
| Clip.PlaneOfLerp | Demo3D/pipeline.cpp:86-93 | every plane function is linear along the interpolated segment |
| Clip.AlphaOnPlane | Demo3D/pipeline.cpp:137-162 | the point at the computed crossing parameter lies on the plane |
| Clip.CrossingDenominator | Demo3D/pipeline.cpp:127-162 | on a plane whose bit is in exactly one of two disjoint out-codes, the crossing's denominator is non-zero and exactly one end is outside |
| Clip.Interval | Demo3D/pipeline.cpp:120-179 | the narrowed interval stays inside [aold, anew], and an end point that is inside keeps its end of the interval |
| Clip.IntervalSkip | Demo3D/pipeline.cpp:127 | a plane whose bit is in neither out-code leaves the interval as it is |
| Clip.IntervalCross | Demo3D/pipeline.cpp:165-176 | one step of the loop: aold rises to alpha only for the old point's bits and anew falls to alpha only for the others. The segment is hidden when they cross |
| Clip.IntervalSound | Demo3D/pipeline.cpp:120-179 | every parameter in the narrowed interval gives a point inside all remaining planes |
| Clip.IntervalComplete | Demo3D/pipeline.cpp:120-179 | every point of the segment that is inside all remaining planes has its parameter in the narrowed interval |
| Clip.VisiblePartExact | Demo3D/pipeline.cpp:106-179 | a point of the segment is inside the clip volume exactly when its parameter is in the part the clipper keeps |
| Clip.SharedPlaneHidden | Demo3D/pipeline.cpp:106 | when both out-codes share a bit, no point of the segment is inside (trivial reject is sound) |
| Clip.BothInsideVisible | Demo3D/pipeline.cpp:107-111 | when both out-codes are zero, every point of the segment is inside (trivial accept is sound) |
| Clip.VisiblePartBounds | Demo3D/pipeline.cpp:120-121 | the kept part lies in [0, 1] and keeps the end 0 (resp. 1) when the old (resp. new) point is inside |
| Stages.Trunc | Demo3D/pipeline.cpp:59 | the float-to-integer conversion truncates toward zero |
| Stages.Byte | Demo3D/pipeline.cpp:59-61 | storing into a byte keeps any value already in 0..255 |
| Stages.OffsetBounds | Demo3D/pipeline.cpp:58-61 | the pixel offset lies in [0, d]; q = -1 gives 0 and q = 1 gives d |
| Stages.ProjectInViewport | Demo3D/pipeline.cpp:58-61 | a point inside the clip volume with w != 0 projects into the viewport rectangle when minx <= maxx and miny <= maxy |
| Stages.ProjectEdges | Demo3D/pipeline.cpp:58-61 | x/w = -1 and 1 map to minx and maxx, and y is flipped: y/w = 1 maps to miny and y/w = -1 to maxy |
| Stages.ReplayOne | Demo3D/pipeline.cpp:39-64 | one level-2 call is one level-1 step on the projected pixel |
| Stages.ReplayTwo | Demo3D/pipeline.cpp:183-194 | two level-2 calls are the two level-1 steps in order |
| Stages.ClipCallsInside | Demo3D/pipeline.cpp:95-202 | the clipper makes at most two level-2 calls, every point it passes on is inside the clip volume, only the last call may draw, and a move never draws |
| Stages.MoveEffect | Demo3D/pipeline.cpp:198-202 | a move draws nothing; the pen goes to the new point's pixel when that point is inside, and otherwise stays where it is |
| Stages.TrivialReject | Demo3D/pipeline.cpp:106 | a draw between two points outside a common plane leaves the screen (pen and segments) unchanged |
| Stages.TrivialAccept | Demo3D/pipeline.cpp:107-111 | a draw between two inside points makes one call, which adds exactly one segment, from the pen to the new point's pixel |
| Stages.DrawEffect | Demo3D/pipeline.cpp:99-197 | a draw adds nothing when no part of the segment is visible. Otherwise it adds exactly one segment, from the pixel of the first visible point to the pixel of the last visible point; both points are inside the clip volume |
| Stages.DrawAccepted | Demo3D/pipeline.cpp:107-111 | with both end points inside, the whole segment is visible and the added segment runs from the old point's pixel to the new point's |
| Stages.DrawNarrowed | Demo3D/pipeline.cpp:112-196 | after the narrowing loop, an aborted loop adds nothing, and a completed one adds the segment between the points at aold and anew |
| Stages.ReplayNarrowed | Demo3D/pipeline.cpp:181-195 | the optional move to the point at aold and the draw to the point at anew (or to v) add exactly that one segment |
| Stages.PenAfter | Demo3D/pipeline.cpp:95-206 | after any call, the pen sits on the pixel of the new point whenever that point is inside |
| Stages.ProjectableInFront | Demo3D/pipeline.cpp:58-61 | when both end points have w > 0, every point the clipper passes to level 2 can be divided by its w |
| Stages.ClipKeepsOnScreen | Demo3D/pipeline.cpp:95-206 | in a non-inverted viewport, a call never adds a segment with an end outside the rectangle |
| Rendering.Pipeline.constructor | Demo3D/pipeline.cpp:25-31 | the bounds are set, the transformation is the identity, nothing is drawn and no point has been given yet |
| Rendering.Pipeline.Mdl1 | Demo3D/pipeline.cpp:39-46 | a segment from the pen to (x, y) is added exactly when draw is set, and the pen moves to (x, y) either way |
| Rendering.Pipeline.Mdl2 | Demo3D/pipeline.cpp:54-64 | the point's pixel, minx + offset of x and maxy - offset of y, is handed to level 1 |
| Rendering.Pipeline.Mdl3 | Demo3D/pipeline.cpp:95-206 | the screen changes exactly as the clipper's level-2 calls prescribe. Afterwards oldPos is v and oldOutCode is its out-code, on every branch, and the pipeline invariant holds |
| Rendering.Pipeline.ClipDraw | Demo3D/pipeline.cpp:99-197 | the drawing branch of the clipper makes exactly the clipper's level-2 calls |
| Rendering.Pipeline.Mdl4 | Demo3D/pipeline.cpp:215-221 | the point is multiplied by the transformation and passed to the clipper |
| Rendering.Pipeline.Mdl4Point | Demo3D/pipeline.cpp:223-233 | the three-coordinate overload clips the transform of (x, y, z, 1) |
| Rendering.TransformPoint | Demo3D/pipeline.cpp:227-230 | the four sums with the fourth column added as it is equal the product of the matrix with (x, y, z, 1) |
| Rendering.Pipeline.MoveTo | Demo3D/pipeline.h:24-27 | a move to v is level 4 without drawing: nothing is drawn, the pen goes to the transformed point's pixel when that point is inside and stays put otherwise, and the transformed v becomes the previous point |
| Rendering.Pipeline.LineTo | Demo3D/pipeline.h:28-31 | a draw to v is level 4 with draw set |
| Rendering.Pipeline.MoveToPoint | Demo3D/pipeline.h:32-35 | a move to (x, y, z) is the three-coordinate level 4 without drawing: nothing is drawn, the pen moves only when the transformed point is inside, and that point becomes the previous point |
| Rendering.Pipeline.LineToPoint | Demo3D/pipeline.h:36-39 | a draw to (x, y, z) is the three-coordinate level 4 with draw set |
| Rendering.Narrow | Demo3D/pipeline.cpp:120-181 | the loop runs through all six planes exactly when some part of the segment is visible, and then leaves 0 <= aold <= anew <= 1 equal to the visible part's ends |
| Rendering.NarrowPlane | Demo3D/pipeline.cpp:127-176 | aold never decreases and anew never increases. Only the old point's bits raise aold and only the others lower anew. The step agrees with the interval function |
| Rendering.Crossing | Demo3D/pipeline.cpp:137-163 | the switch computes the crossing parameter of plane i (plane 0 for the default label) |
| Rendering.BitNext | Demo3D/pipeline.cpp:178 | shifting the one-bit mask left moves it to the next plane's bit |

## Left out

- The Arduboy display and its `drawLine` (Demo3D/pipeline.cpp:42) are a foreign library. They are replaced by the ghost record `lines` of the segments handed to it. The `Arduboy` reference held by the pipeline is not modelled.
- Floating point is not modelled: single/double precision, rounding, infinities and NaN. Coordinates and cells are `real`.
  - A zero `w` reaching level 2 would divide by zero in the source. Every operation that reaches level 2 therefore requires `Projectable`: each point the clipper passes on has `w != 0`.
  - `Stages.ProjectableInFront` shows that this holds whenever both end points have `w > 0`.
  - The crossing denominators need no such precondition; they are proved non-zero.
- `cos` and `sin` in `setRotate` are library functions. `Matrix3D.SetRotate` takes the cosine `c` and sine `s` directly.
- The float-to-byte conversion in `mdl2` (Demo3D/pipeline.cpp:59, 61) is undefined in C when the value is outside 0..255, which can happen only in an inverted viewport (maxx < minx). The model truncates toward zero and then reduces the sum modulo 256, as storing an `int` into a `uint8_t` does. `Stages.ProjectInViewport` and `Stages.ClipKeepsOnScreen` are stated for non-inverted viewports only.
- The unused `char buffer[64]` in `mdl2` has no effect and is left out.
- C++ access control (only `transformation` is public) is not expressed. The pipeline's other fields change only through its methods.
- The constructor leaves `xpos`, `ypos`, `oldPos` and `oldOutCode` uninitialised. The model leaves them arbitrary and adds the ghost flag `primed`: a draw requires a previous point, so the first call must be a move.
- `Matrices.Matrix3D.Multiply` requires `m` not to share its cells with the matrix it updates. In the source, `a.multiply(a)` would read rows it has already overwritten.
- The X and Y rotation blocks (Demo3D/matrix3d.cpp:98-101, 104-107) are the usual right-handed rotations by the angle. The Z block (Demo3D/matrix3d.cpp:110-113) is their transpose: it sets `a[0][1] = s` and `a[1][0] = -s`, a turn by minus the angle in the (x, y) plane. The model follows the code, and `Math3D.TransformRotation` states the turn each block performs.
- `Vectors.Multiply` returns a new point, so the self-aliased call `v.multiply(m, v)` is not modelled. In the source that call writes `x` before reading `v.x` for `y`, `z` and `w` (Demo3D/vector3d.cpp:25-28), so it gives a wrong result. The pipeline's only call passes a fresh point (Demo3D/pipeline.cpp:217-219).
- Some inline code of the source is split into helper methods of its own: `Rendering.Narrow`, `Rendering.NarrowPlane` and `Rendering.Crossing` (parts of `mdl3`), `Rendering.Pipeline.ClipDraw` (the drawing branch of `mdl3`), `Rendering.TransformPoint` (the sums in the second `mdl4`), and `Matrices.Matrix3D.RowTimesMatrix` and `Matrices.Matrix3D.CopyRow` (the two inner loops of `multiply`). Each helper runs the same statements in the same order.
- `Clip.Lerp` returns the interpolated point instead of writing it through an out-parameter.
- Demo3D/math3d.h is not part of this model beyond its data layout and the `AXIS_*` constants.
