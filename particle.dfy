/** `Ray` and `Particle`: a light source whose 360 rays share its position object. */
module Particles {
  import opened Geometry
  import Nearest

  /** A mutable p5.Vector: `Particle.pos` is one, and every ray holds the same one. */
  class Vector {
    var x: real
    var y: real

    constructor (x: real, y: real)
      ensures this.x == x && this.y == y
    {
      this.x, this.y := x, y;
    }

    function Value(): Point
      reads this
    {
      Point(x, y)
    }

    /** `set(x, y)`: overwrite both coordinates in place. */
    method Set(x: real, y: real)
      modifies this
      ensures Value() == Point(x, y)
    {
      this.x, this.y := x, y;
    }
  }

  /** A ray: a live reference to its owner's position, and a direction. */
  class Ray {
    const pos: Vector
    var dir: Point

    /** `new Ray(pos, angle)`: the direction `p5.Vector.fromAngle(angle)` is given. */
    constructor (pos: Vector, dir: Point)
      ensures this.pos == pos && this.dir == dir
    {
      this.pos, this.dir := pos, dir;
    }

    /** The ray's origin: wherever the shared position is now. */
    function Origin(): Point
      reads pos
    {
      pos.Value()
    }

    /** `lookAt(x, y)`: point the ray at the target, normalised. The length of the
        vector to the target, a square root, is passed in as `norm`. */
    method LookAt(x: real, y: real, norm: real)
      requires norm > 0.0 && norm * norm == Dist2(Point(x, y), Origin())
      modifies this
      ensures dir == Scale(1.0 / norm, Sub(Point(x, y), Origin()))
    {
      dir := Point(x - pos.x, y - pos.y);
      dir := Point(dir.x * (1.0 / norm), dir.y * (1.0 / norm));
    }
  }

  /** After `lookAt`, the direction is a unit vector and the target lies on the ray,
      `norm` ahead of the origin. */
  lemma LookAtAims(origin: Point, target: Point, norm: real)
    requires norm > 0.0 && norm * norm == Dist2(target, origin)
    ensures var dir := Scale(1.0 / norm, Sub(target, origin));
            dir.x * dir.x + dir.y * dir.y == 1.0 && Along(origin, dir, norm) == target
  {
    var v := Sub(target, origin);
    var k := 1.0 / norm;
    assert k * norm == 1.0;
    calc {
      (k * v.x) * (k * v.x) + (k * v.y) * (k * v.y);
      (k * k) * (v.x * v.x + v.y * v.y);
      (k * k) * (norm * norm);
      (k * norm) * (k * norm);
      1.0;
    }
  }

  /** The light source: a position and the rays that share it. */
  class Particle {
    const pos: Vector
    var rays: seq<Ray>

    /** Every ray's origin is this particle's own position object, and there are 360. */
    ghost predicate Valid()
      reads this
    {
      |rays| == 360 && forall i :: 0 <= i < |rays| ==> rays[i].pos == pos
    }

    /** `new Particle()`: the position starts at the canvas centre, and one ray is made
        per whole degree `i` in 0..359, with direction `fromAngle(i)` standing for
        `p5.Vector.fromAngle(radians(i))`. */
    constructor (width: real, height: real, fromAngle: nat -> Point)
      ensures Valid() && fresh(pos)
      ensures pos.Value() == Point(width / 2.0, height / 2.0)
      ensures forall i :: 0 <= i < |rays| ==> fresh(rays[i]) && rays[i].dir == fromAngle(i)
      ensures forall i, j :: 0 <= i < j < |rays| ==> rays[i] != rays[j]
    {
      pos := new Vector(width / 2.0, height / 2.0);
      rays := [];
      new;
      for i := 0 to 360
        invariant pos.Value() == Point(width / 2.0, height / 2.0)
        invariant |rays| == i
        invariant forall j :: 0 <= j < i ==>
                    rays[j].pos == pos && fresh(rays[j]) && rays[j].dir == fromAngle(j)
        invariant forall j, k :: 0 <= j < k < i ==> rays[j] != rays[k]
      {
        var ray := new Ray(pos, fromAngle(i));
        rays := rays + [ray];
      }
    }

    /** `update(x, y)`: overwrite the shared position; every ray now starts at (x, y)
        and keeps its direction. */
    method Update(x: real, y: real)
      requires Valid()
      modifies pos
      ensures Valid() && rays == old(rays)
      ensures pos.Value() == Point(x, y)
      ensures forall i :: 0 <= i < |rays| ==> rays[i].Origin() == Point(x, y)
      ensures forall i :: 0 <= i < |rays| ==> rays[i].dir == old(rays[i].dir)
    {
      pos.Set(x, y);
    }

    /** `look(walls)` without its drawing: the nearest hit of each ray, in ray order. */
    method Look(walls: seq<Boundary>) returns (hits: seq<Option<Point>>)
      requires Valid()
      ensures |hits| == |rays|
      ensures forall i :: 0 <= i < |rays| ==>
                Nearest.IsClosest(pos.Value(), rays[i].dir, walls, hits[i])
    {
      hits := [];
      for i := 0 to |rays|
        invariant |hits| == i
        invariant forall j :: 0 <= j < i ==>
                    Nearest.IsClosest(pos.Value(), rays[j].dir, walls, hits[j])
      {
        var ray := rays[i];
        var closest := Nearest.ClosestHit(ray.Origin(), ray.dir, walls);
        hits := hits + [closest];
      }
    }
  }
}
