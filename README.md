# 2D ray casting: a Dafny model

This project models the geometry of a small p5.js light-ray demo (`sketch.js`).
A particle (the light source) sits at the mouse pointer. It casts 360 rays, one
per whole degree. Each ray finds the nearest point where it crosses a wall
(a `Boundary` segment). The scene keeps a list of walls: the four canvas edges,
plus any walls the user draws by dragging. The key `c` removes the drawn walls.

Modules, one per part of the sketch:

- `Geometry` (geometry.dfy): points, walls and vector arithmetic, over exact
  reals. It also holds `Option`, which stands for JavaScript's `undefined`/`null`.
- `Intersection` (intersection.dfy): `Ray.cast`. This is a pure function of the
  ray's origin, its direction and the wall. It is written with the source's own
  `x1..y4`, `dem`, `t` and `u`. Its contract describes the result completely:
  - no point when `dem == 0`;
  - a returned point is a crossing strictly inside the wall and strictly ahead
    of the origin;
  - for non-parallel lines, every such crossing is found;
  - a meeting point at an endpoint, at the origin or behind it is rejected.

  Supporting lemmas show that the formula is Cramer's rule and that its
  solution is unique.
- `Nearest` (nearest.dfy): the inner loop of `Particle.look`, a running
  minimum. `IsClosest` specifies its result without a loop: `None` exactly
  when no wall is hit; otherwise the hit of a wall that is no farther than any
  other hit, where every earlier wall's hit is strictly farther (the strict `<`
  makes the earliest of equally near walls win). `NearestUnique` shows that
  this choice is unique.
- `Particles` (particle.dfy): classes `Vector` (a mutable p5.Vector), `Ray` and
  `Particle`. The aliasing is kept: each `Ray` holds the particle's own
  `Vector` as a `const` reference. `Particle.Valid` states that all 360 rays
  share that object. `Update` writes only that one object, and its contract
  proves that every ray's origin becomes the new point while every direction
  stays the same.
- `Scene` (sketch.dfy): the sketch's globals as a class `Sketch` (`walls`,
  `particle`, `isDrawing`, `startPoint`), with its callbacks `Setup`, `Draw`,
  `MousePressed`, `MouseReleased` and `KeyPressed`. It also holds lemmas about
  the wall list (reset after drawing gives back the four boundary walls) and
  about the four-wall scene with the particle at the centre.

How the parameters stand in for the host:

- The canvas size (`width`, `height`), the pointer (`mouseX`, `mouseY`) and the
  key (`key`) are parameters.
- `p5.Vector.fromAngle(radians(i))` is a parameter, `fromAngle: nat -> Point`,
  called for each degree `i` in 0..359.
- In `lookAt`, the vector length (a square root) is a parameter, `norm`, with
  `norm * norm` equal to the squared distance.
- `p5.Vector.dist` is replaced by the squared distance `Dist2`. Square root is
  monotone on non-negative numbers, so `d < record` picks the same hit. In
  `ClosestHit`, `record == None` stands for `Infinity`.

Behaviour of the code that the model makes explicit:

- Ties: the strict `<` keeps the earliest of equally near walls, in list order.
  `IsClosest` states that rule.
- Centre scene: from the canvas centre, every ray of the four-wall scene that is
  not aimed exactly along a diagonal finds a hit on the canvas (`CentreScene`).
  A ray along either diagonal finds no hit at all (`CornerRayMisses`): it meets
  every wall at a corner, and `cast` rejects wall endpoints (`0 < t < 1`). On a
  square canvas the 45-degree ray is such a ray (over exact reals).
- Rays along a wall: a ray running along a wall's own line passes through that
  wall, because `dem == 0` for it however the two overlap (`CastAlongWall`). For
  example, ray 0 (direction (1,0)) against a horizontal wall drawn at the
  pointer's height; there `dem` is exactly 0 even in floating point.
- Degenerate walls: nothing stops a wall with `a == b`. Such a wall gives
  `dem == 0`, so `cast` returns nothing, and `Cast`'s first `ensures` states this.

## Model

| member | source | states |
|---|---|---|
| `Geometry.Dist2` | sketch.js:85 | the squared distance used in place of `p5.Vector.dist` is never negative |
| `Intersection.Cast` | sketch.js:35-61 | no point when `dem == 0` (the lines are parallel or one of them is a single point); a returned point equals `a + t*(b - a)` with `0 < t < 1` and equals `pos + u*dir` with `u > 0`; for non-parallel lines, every such crossing is returned; a meeting point with `t` outside (0,1) or with `u <= 0` gives no point |
| `Intersection.CramerSolves` | sketch.js:46-51 | when `dem != 0`, the `t` and `u` of the formula solve `a + t*(b - a) == pos + u*dir` |
| `Intersection.CrossingUnique` | sketch.js:46-51 | when `dem != 0`, any parameters at which the two lines meet are exactly the formula's `t` and `u` |
| `Intersection.CastExcludesEndpoints` | sketch.js:53 | a ray passing through a wall endpoint gets no point from that wall |
| `Intersection.CastAhead` | sketch.js:35-61 | the ray at (0,0) along +x against the wall (5,-5)-(5,5) returns (5,0) |
| `Intersection.CastAlongWall` | sketch.js:46-48 | a ray at (0,0) along +x crosses the wall (1,0)-(2,0) strictly inside it and ahead of its origin, yet `dem == 0` gives no point: a ray along a wall's line passes through it |
| `Intersection.CastBehind` | sketch.js:51-53 | the same ray against the wall (-5,-5)-(-5,5), behind its origin, returns no point |
| `Nearest.ClosestHit` | sketch.js:79-91 | the result is `None` iff no wall is hit; otherwise it is the hit of a wall whose distance is no greater than that of any other hit, and strictly less than that of every earlier wall's hit |
| `Nearest.NearestUnique` | sketch.js:86 | because of the strict `<`, at most one wall satisfies the nearest-hit rule, so `look`'s choice is determined |
| `Particles.Vector.constructor` | sketch.js:67 | `createVector(x, y)` holds exactly `(x, y)` |
| `Particles.Vector.Set` | sketch.js:75 | `set(x, y)` overwrites both coordinates in place |
| `Particles.Ray.constructor` | sketch.js:16-19 | the ray keeps the given position object itself (not a copy), and the given direction |
| `Particles.Ray.LookAt` | sketch.js:29-33 | the new direction is `(target - origin) / norm`, where `norm` is the length of `target - origin` |
| `Particles.LookAtAims` | sketch.js:29-33 | after `lookAt`, the direction has length 1 and the target lies on the ray at parameter `norm` |
| `Particles.Particle.constructor` | sketch.js:66-72 | the position is a fresh vector at (width/2, height/2); exactly 360 fresh rays are made; ray `i` has direction `fromAngle(i)` and shares the particle's position object |
| `Particles.Particle.Update` | sketch.js:74-76 | only the shared position changes: afterwards every ray's origin is (x, y), every ray's direction is unchanged, and the ray list is the same |
| `Particles.Particle.Look` | sketch.js:78-97 | one result per ray, in ray order; result `i` is the nearest hit (as `ClosestHit` states it) of ray `i` from the particle's position |
| `Scene.BoundaryWalls` | sketch.js:118-121 | four walls joined end to end: each wall ends where the next begins, and the last ends at (0,0), where the first begins |
| `Scene.KeepBoundaries` | sketch.js:158 | `slice(0, 4)` keeps a prefix of the walls, in order, of length 4 (or fewer when there are fewer walls) |
| `Scene.ResetRestoresBoundaries` | sketch.js:156-160 | resetting the four boundary walls followed by any drawn walls gives back exactly the four boundary walls |
| `Scene.ResetIdempotent` | sketch.js:158 | resetting twice is the same as resetting once |
| `Scene.BoundaryHitInCanvas` | sketch.js:118-121 | any hit on a boundary wall lies within the closed canvas rectangle |
| `Scene.CentreRayHitsWall` | sketch.js:114-123 | from the canvas centre, a ray not aimed exactly at a corner hits at least one boundary wall |
| `Scene.CentreScene` | sketch.js:114-123 | in the four-wall scene with the particle at the centre, a ray not aimed at a corner finds a nearest hit, and that hit lies on the canvas |
| `Scene.CornerRayMisses` | sketch.js:53 | in that scene, any non-zero ray from the centre along either diagonal of the canvas finds no hit, because it meets every wall at an endpoint |
| `Scene.Sketch.constructor` | sketch.js:109-112 | before `setup`: no walls, no particle, no drag in progress, no start point |
| `Scene.Sketch.Setup` | sketch.js:114-124 | appends exactly the four boundary walls; creates a particle at the centre with direction `fromAngle(i)` on ray `i`; leaves the drag state alone |
| `Scene.Sketch.Draw` | sketch.js:131-133 | the particle's shared position becomes (mouseX, mouseY), and every one of the 360 ray results is the nearest hit from the new pointer position, so no origin is stale |
| `Scene.Sketch.MousePressed` | sketch.js:141-144 | records the pointer as the start point and starts a drag; the walls are unchanged |
| `Scene.Sketch.MouseReleased` | sketch.js:146-154 | during a drag, exactly one wall, from the start point to the pointer, is appended at the end; otherwise the walls are unchanged; afterwards no drag is in progress |
| `Scene.Sketch.KeyPressed` | sketch.js:156-160 | 'c' or 'C' keeps exactly the first four walls, in order; any other key changes nothing |
| `Scene.DrawThenReset` | sketch.js:141-160 | setup, one drag, then 'c' leaves exactly the four boundary walls in their original order |

## Left out

- Rendering: every `show` method, `stroke`, `line`, `ellipse`, `fill`, `background`, `push`/`translate`/`pop` and `createCanvas`. `draw`'s wall and drag-line drawing is left out too, as is the line that `look` draws to each hit. `Look` returns the hits instead.
- p5's event dispatch and the globals `width`, `height`, `mouseX`, `mouseY` and `key`: these become parameters. `createCanvas(400, 400)` fixes the size in the source; the model takes any `width` and `height`.
- Trigonometry: `p5.Vector.fromAngle` and `radians` are foreign calls. The ray directions come in through the `fromAngle` parameter, so their unit length is not modelled.
- Square roots: `p5.Vector.dist` is compared as a squared distance. The length used by `normalize` is the `norm` parameter of `LookAt`.
- Keys: p5's `key` is a string ("Enter", "Shift", ...); the model takes one `char`. Only 'c' and 'C' do anything, so multi-character keys, which do nothing, lose no behaviour.
- Particles.Ray.LookAt: the case where the target equals the origin is not modelled (`requires norm > 0`). There, normalising a zero vector has no defined direction. `lookAt` is never called by the sketch.
- IEEE-754 floating point: rounding, the exact `dem === 0` test on floats, NaN and Infinity. The model works over exact reals, so its results can differ from the float results near parallel lines and wall endpoints.
- `Infinity` as the start value of `record`: it is modelled as `None`, and every finite distance counts as less than it.
