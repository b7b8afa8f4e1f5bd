/** Points, walls and the small vector arithmetic the sketch uses, over exact reals. */
module Geometry {

  /** A value that may be absent: `None` stands for JavaScript's `undefined`/`null`. */
  datatype Option<T> = None | Some(value: T)

  /** A 2D point or vector (the x and y of a p5.Vector). */
  datatype Point = Point(x: real, y: real)

  /** A wall: the two endpoints of a `Boundary`. */
  datatype Boundary = Boundary(a: Point, b: Point)

  function Add(p: Point, q: Point): Point { Point(p.x + q.x, p.y + q.y) }

  function Sub(p: Point, q: Point): Point { Point(p.x - q.x, p.y - q.y) }

  function Scale(k: real, p: Point): Point { Point(k * p.x, k * p.y) }

  /** The 2D cross product; zero exactly when `p` and `q` are parallel or one is zero. */
  function Cross(p: Point, q: Point): real { p.x * q.y - p.y * q.x }

  /** The squared Euclidean distance, which orders points as `p5.Vector.dist` does. */
  function Dist2(p: Point, q: Point): (r: real)
    ensures r >= 0.0
  {
    var dx, dy := p.x - q.x, p.y - q.y;
    dx * dx + dy * dy
  }

  /** The point at parameter `t` on the wall's line: `a` at 0, `b` at 1. */
  function Lerp(w: Boundary, t: real): Point { Add(w.a, Scale(t, Sub(w.b, w.a))) }

  /** The point at parameter `u` on the ray's line: the origin at 0, origin + dir at 1. */
  function Along(pos: Point, dir: Point, u: real): Point { Add(pos, Scale(u, dir)) }
}
