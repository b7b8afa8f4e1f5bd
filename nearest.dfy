/** The inner loop of `Particle.look`: for one ray, the nearest hit over all walls. */
module Nearest {
  import opened Geometry
  import opened Intersection

  /** The ray hits `wall`. */
  predicate Hits(pos: Point, dir: Point, wall: Boundary)
  {
    Cast(pos, dir, wall).Some?
  }

  /** Squared distance from the origin to the ray's hit on `wall`; it orders hits as
      the Euclidean distance `p5.Vector.dist` does, since square root is monotone. */
  function HitDist2(pos: Point, dir: Point, wall: Boundary): real
    requires Hits(pos, dir, wall)
  {
    Dist2(pos, Cast(pos, dir, wall).value)
  }

  /** Among the first `n` walls, wall `k` holds the hit that `look` keeps: no hit is
      closer, and every hit on an earlier wall is strictly farther (the strict `<`
      lets the earliest of equally near walls win). */
  ghost predicate NearestAmong(pos: Point, dir: Point, walls: seq<Boundary>, n: nat, k: nat)
    requires n <= |walls|
  {
    k < n && Hits(pos, dir, walls[k]) &&
    (forall j :: 0 <= j < n && Hits(pos, dir, walls[j]) ==>
       HitDist2(pos, dir, walls[k]) <= HitDist2(pos, dir, walls[j])) &&
    (forall j :: 0 <= j < k && Hits(pos, dir, walls[j]) ==>
       HitDist2(pos, dir, walls[k]) < HitDist2(pos, dir, walls[j]))
  }

  /** `closest` is what `look` finds for one ray: `None` exactly when no wall is hit,
      and otherwise the hit on the nearest wall, the earliest one on a tie. */
  ghost predicate IsClosest(pos: Point, dir: Point, walls: seq<Boundary>, closest: Option<Point>)
  {
    (closest.None? <==> forall j :: 0 <= j < |walls| ==> !Hits(pos, dir, walls[j])) &&
    (closest.Some? ==>
       exists k: nat :: NearestAmong(pos, dir, walls, |walls|, k) && closest == Cast(pos, dir, walls[k]))
  }

  /** The running minimum of `look` for the ray at `pos` along `dir`. */
  method ClosestHit(pos: Point, dir: Point, walls: seq<Boundary>) returns (closest: Option<Point>)
    ensures IsClosest(pos, dir, walls, closest)
  {
    var record: Option<real> := None;  // None plays the part of Infinity
    closest := None;
    ghost var k: nat := 0;
    for i := 0 to |walls|
      invariant closest.None? <==> record.None?
      invariant closest.None? <==> forall j :: 0 <= j < i ==> !Hits(pos, dir, walls[j])
      invariant closest.Some? ==>
                  NearestAmong(pos, dir, walls, i, k) && closest == Cast(pos, dir, walls[k]) &&
                  record == Some(HitDist2(pos, dir, walls[k]))
    {
      var pt := Cast(pos, dir, walls[i]);
      if pt.Some? {
        var d := Dist2(pos, pt.value);
        if record.None? || d < record.value {
          record := Some(d);
          closest := pt;
          k := i;
        }
      }
    }
  }

  /** The tie-break makes the choice unique: at most one wall is the nearest. */
  lemma NearestUnique(pos: Point, dir: Point, walls: seq<Boundary>, k1: nat, k2: nat)
    requires NearestAmong(pos, dir, walls, |walls|, k1)
    requires NearestAmong(pos, dir, walls, |walls|, k2)
    ensures k1 == k2
  {
  }
}
