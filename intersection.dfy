/** `Ray.cast`: where a ray meets a wall, by the two-point line–line intersection formula. */
module Intersection {
  import opened Geometry

  /** The ray's line meets the wall's line at wall parameter `t` and ray parameter `u`. */
  ghost predicate Meets(pos: Point, dir: Point, wall: Boundary, t: real, u: real)
  {
    Lerp(wall, t) == Along(pos, dir, u)
  }

  /** The two lines meet strictly inside the wall and strictly ahead of the origin. */
  ghost predicate Crossing(pos: Point, dir: Point, wall: Boundary, t: real, u: real)
  {
    0.0 < t < 1.0 && u > 0.0 && Meets(pos, dir, wall, t, u)
  }

  /** The determinant `dem` of the two lines: zero when they are parallel, or when the
      wall or the direction is a single point. */
  function Dem(dir: Point, wall: Boundary): real
  {
    Cross(Sub(wall.b, wall.a), dir)
  }

  /** The wall parameter of the crossing point, by Cramer's rule. */
  function WallParam(pos: Point, dir: Point, wall: Boundary): real
    requires Dem(dir, wall) != 0.0
  {
    Cross(Sub(pos, wall.a), dir) / Dem(dir, wall)
  }

  /** The ray parameter of the crossing point, by Cramer's rule. */
  function RayParam(pos: Point, dir: Point, wall: Boundary): real
    requires Dem(dir, wall) != 0.0
  {
    Cross(Sub(pos, wall.a), Sub(wall.b, wall.a)) / Dem(dir, wall)
  }

  /** The hit point of a ray with origin `pos` and direction `dir` against `wall`, or
      `None` (the source's `undefined`). The contract characterises the result
      completely: no point for parallel lines; a returned point is a crossing strictly
      inside the wall and strictly ahead of the origin; for non-parallel lines such a
      crossing is always found;
      and a meeting point at an endpoint, outside the wall, at the origin or behind it
      is rejected. */
  function Cast(pos: Point, dir: Point, wall: Boundary): (r: Option<Point>)
    ensures Dem(dir, wall) == 0.0 ==> r == None
    ensures r.Some? ==> exists t, u :: Crossing(pos, dir, wall, t, u) && r.value == Lerp(wall, t)
    ensures forall t, u :: Dem(dir, wall) != 0.0 && Crossing(pos, dir, wall, t, u) ==>
              r == Some(Lerp(wall, t))
    ensures forall t, u :: Meets(pos, dir, wall, t, u) && !(0.0 < t < 1.0 && u > 0.0) ==>
              r == None
  {
    var x1, y1, x2, y2 := wall.a.x, wall.a.y, wall.b.x, wall.b.y;
    var x3, y3 := pos.x, pos.y;
    var x4, y4 := pos.x + dir.x, pos.y + dir.y;
    var dem := (x1 - x2) * (y3 - y4) - (y1 - y2) * (x3 - x4);
    SourceTerms(pos, dir, wall);
    if dem == 0.0 then
      None
    else
      var t := ((x1 - x3) * (y3 - y4) - (y1 - y3) * (x3 - x4)) / dem;
      var u := -((x1 - x2) * (y1 - y3) - (y1 - y2) * (x1 - x3)) / dem;
      assert t == WallParam(pos, dir, wall) && u == RayParam(pos, dir, wall);
      Characterise(pos, dir, wall, t, u);
      if t > 0.0 && t < 1.0 && u > 0.0 then
        var pt := Point(x1 + t * (x2 - x1), y1 + t * (y2 - y1));
        assert Crossing(pos, dir, wall, t, u) && pt == Lerp(wall, t);
        Some(pt)
      else
        None
  }

  /** The source's `dem` and the numerators of its `t` and `u` are cross products. */
  lemma SourceTerms(pos: Point, dir: Point, wall: Boundary)
    ensures var x1, y1, x2, y2 := wall.a.x, wall.a.y, wall.b.x, wall.b.y;
            var x3, y3 := pos.x, pos.y;
            var x4, y4 := pos.x + dir.x, pos.y + dir.y;
            (x1 - x2) * (y3 - y4) - (y1 - y2) * (x3 - x4) == Dem(dir, wall) &&
            (x1 - x3) * (y3 - y4) - (y1 - y3) * (x3 - x4) == Cross(Sub(pos, wall.a), dir) &&
            -((x1 - x2) * (y1 - y3) - (y1 - y2) * (x1 - x3))
              == Cross(Sub(pos, wall.a), Sub(wall.b, wall.a))
  {
  }

  /** Cramer's parameters are where the lines meet, and the only place. */
  lemma Characterise(pos: Point, dir: Point, wall: Boundary, t: real, u: real)
    requires Dem(dir, wall) != 0.0
    requires t == WallParam(pos, dir, wall) && u == RayParam(pos, dir, wall)
    ensures Meets(pos, dir, wall, t, u)
    ensures forall t', u' | Meets(pos, dir, wall, t', u') :: t' == t && u' == u
  {
    CramerSolves(pos, dir, wall);
    forall t', u' | Meets(pos, dir, wall, t', u') ensures t' == t && u' == u {
      CrossingUnique(pos, dir, wall, t', u');
    }
  }

  /** Cramer's rule solves `a + t*(b - a) == pos + u*dir` when the lines are not parallel. */
  lemma CramerSolves(pos: Point, dir: Point, wall: Boundary)
    requires Dem(dir, wall) != 0.0
    ensures Meets(pos, dir, wall, WallParam(pos, dir, wall), RayParam(pos, dir, wall))
  {
    var w, e, d := Sub(pos, wall.a), Sub(wall.b, wall.a), dir;
    var dem := Cross(e, d);
    var t, u := Cross(w, d) / dem, Cross(w, e) / dem;
    assert t * dem == Cross(w, d);
    assert u * dem == Cross(w, e);
    assert (t * e.x - u * d.x) * dem == w.x * dem by {
      calc {
        (t * e.x - u * d.x) * dem;
        (t * dem) * e.x - (u * dem) * d.x;
        Cross(w, d) * e.x - Cross(w, e) * d.x;
        w.x * dem;
      }
    }
    assert (t * e.y - u * d.y) * dem == w.y * dem by {
      calc {
        (t * e.y - u * d.y) * dem;
        (t * dem) * e.y - (u * dem) * d.y;
        Cross(w, d) * e.y - Cross(w, e) * d.y;
        w.y * dem;
      }
    }
    CancelFactor(t * e.x - u * d.x, w.x, dem);
    CancelFactor(t * e.y - u * d.y, w.y, dem);
  }

  lemma CancelFactor(p: real, q: real, k: real)
    requires k != 0.0 && p * k == q * k
    ensures p == q
  {
    assert (p - q) * k == 0.0;
  }

  /** When the lines are not parallel they meet in one point only: any `t`, `u` at which
      they meet are the ones Cramer's rule gives. */
  lemma CrossingUnique(pos: Point, dir: Point, wall: Boundary, t: real, u: real)
    requires Dem(dir, wall) != 0.0
    requires Meets(pos, dir, wall, t, u)
    ensures t == WallParam(pos, dir, wall) && u == RayParam(pos, dir, wall)
  {
    var e, w, dem := Sub(wall.b, wall.a), Sub(pos, wall.a), Dem(dir, wall);
    assert t * e.x - u * dir.x == w.x && t * e.y - u * dir.y == w.y;
    assert t * dem == Cross(w, dir) by {
      calc {
        Cross(w, dir);
        (t * e.x - u * dir.x) * dir.y - (t * e.y - u * dir.y) * dir.x;
        t * (e.x * dir.y - e.y * dir.x);
      }
    }
    assert u * dem == Cross(w, e) by {
      calc {
        Cross(w, e);
        (t * e.x - u * dir.x) * e.y - (t * e.y - u * dir.y) * e.x;
        u * (e.x * dir.y - e.y * dir.x);
      }
    }
  }

  /** A wall endpoint is never a hit, even when the ray passes through it. */
  lemma CastExcludesEndpoints(pos: Point, dir: Point, wall: Boundary, u: real)
    requires Along(pos, dir, u) == wall.a || Along(pos, dir, u) == wall.b
    ensures Cast(pos, dir, wall) == None
  {
    if Along(pos, dir, u) == wall.a {
      assert Meets(pos, dir, wall, 0.0, u);
    } else {
      assert Meets(pos, dir, wall, 1.0, u);
    }
  }

  /** A ray at (0,0) along +x hits the wall (5,-5)-(5,5) at (5,0). */
  lemma CastAhead()
    ensures Cast(Point(0.0, 0.0), Point(1.0, 0.0), Boundary(Point(5.0, -5.0), Point(5.0, 5.0)))
            == Some(Point(5.0, 0.0))
  {
    assert Crossing(Point(0.0, 0.0), Point(1.0, 0.0), Boundary(Point(5.0, -5.0), Point(5.0, 5.0)), 0.5, 5.0);
  }

  /** A ray running along a wall's own line passes through it: a ray at (0,0) along +x
      crosses the inside of the wall (1,0)-(2,0) ahead of its origin, yet `dem == 0`
      gives no point. */
  lemma CastAlongWall()
    ensures Crossing(Point(0.0, 0.0), Point(1.0, 0.0), Boundary(Point(1.0, 0.0), Point(2.0, 0.0)), 0.5, 1.5)
    ensures Cast(Point(0.0, 0.0), Point(1.0, 0.0), Boundary(Point(1.0, 0.0), Point(2.0, 0.0))) == None
  {
    var pos, dir, wall := Point(0.0, 0.0), Point(1.0, 0.0), Boundary(Point(1.0, 0.0), Point(2.0, 0.0));
    assert Lerp(wall, 0.5) == Point(1.5, 0.0) == Along(pos, dir, 1.5);
    assert Dem(dir, wall) == 0.0;
  }

  /** The same ray misses the wall (-5,-5)-(-5,5), which is behind its origin. */
  lemma CastBehind()
    ensures Cast(Point(0.0, 0.0), Point(1.0, 0.0), Boundary(Point(-5.0, -5.0), Point(-5.0, 5.0)))
            == None
  {
    var pos, dir, wall := Point(0.0, 0.0), Point(1.0, 0.0), Boundary(Point(-5.0, -5.0), Point(-5.0, 5.0));
    assert Lerp(wall, 0.5) == Point(-5.0, 0.0) == Along(pos, dir, -5.0);
    assert Meets(pos, dir, wall, 0.5, -5.0);
  }
}
