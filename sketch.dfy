/** The sketch's global state: the wall list, the particle and the drag in progress,
    with the p5 callbacks `setup`, `draw`, `mousePressed`, `mouseReleased` and
    `keyPressed`. Canvas size, pointer and key are parameters. */
module Scene {
  import opened Geometry
  import opened Intersection
  import Nearest
  import Particles

  /** The four walls `setup` pushes: the edges of the canvas, in order. */
  function BoundaryWalls(width: real, height: real): (r: seq<Boundary>)
    ensures |r| == 4
    ensures forall i :: 0 <= i < 3 ==> r[i].b == r[i + 1].a
    ensures r[3].b == r[0].a == Point(0.0, 0.0)
  {
    [Boundary(Point(0.0, 0.0), Point(width, 0.0)),
     Boundary(Point(width, 0.0), Point(width, height)),
     Boundary(Point(width, height), Point(0.0, height)),
     Boundary(Point(0.0, height), Point(0.0, 0.0))]
  }

  /** `walls.slice(0, 4)`: the first four walls, or all of them when there are fewer. */
  function KeepBoundaries(walls: seq<Boundary>): (r: seq<Boundary>)
    ensures |r| == if |walls| < 4 then |walls| else 4
    ensures r <= walls
  {
    if |walls| < 4 then walls else walls[..4]
  }

  /** The reset keys. */
  predicate IsResetKey(key: char)
  {
    key == 'c' || key == 'C'
  }

  /** Reset after any number of drawn walls gives back exactly the four boundaries. */
  lemma ResetRestoresBoundaries(width: real, height: real, drawn: seq<Boundary>)
    ensures KeepBoundaries(BoundaryWalls(width, height) + drawn) == BoundaryWalls(width, height)
  {
    var b := BoundaryWalls(width, height);
    assert (b + drawn)[..4] == b;
  }

  /** Resetting twice is resetting once. */
  lemma ResetIdempotent(walls: seq<Boundary>)
    ensures KeepBoundaries(KeepBoundaries(walls)) == KeepBoundaries(walls)
  {
  }

  /** The closed canvas rectangle. */
  predicate InCanvas(p: Point, width: real, height: real)
  {
    0.0 <= p.x <= width && 0.0 <= p.y <= height
  }

  /** Every hit on a boundary wall lies on the edge of the canvas. */
  lemma BoundaryHitInCanvas(width: real, height: real, pos: Point, dir: Point, k: nat)
    requires width >= 0.0 && height >= 0.0 && k < 4
    requires Nearest.Hits(pos, dir, BoundaryWalls(width, height)[k])
    ensures InCanvas(Cast(pos, dir, BoundaryWalls(width, height)[k]).value, width, height)
  {
    var wall := BoundaryWalls(width, height)[k];
    var t, u :| Crossing(pos, dir, wall, t, u) && Cast(pos, dir, wall).value == Lerp(wall, t);
    EdgeInCanvas(width, height, k, t);
  }

  lemma EdgeInCanvas(width: real, height: real, k: nat, t: real)
    requires width >= 0.0 && height >= 0.0 && k < 4 && 0.0 < t < 1.0
    ensures InCanvas(Lerp(BoundaryWalls(width, height)[k], t), width, height)
  {
    if k == 0 {
      TopEdgeInCanvas(width, height, t);
    } else if k == 1 {
      RightEdgeInCanvas(width, height, t);
    } else if k == 2 {
      BottomEdgeInCanvas(width, height, t);
    } else {
      LeftEdgeInCanvas(width, height, t);
    }
  }

  lemma TopEdgeInCanvas(width: real, height: real, t: real)
    requires width >= 0.0 && height >= 0.0 && 0.0 < t < 1.0
    ensures InCanvas(Lerp(Boundary(Point(0.0, 0.0), Point(width, 0.0)), t), width, height)
  {
    FractionOf(t, width);
    assert Lerp(Boundary(Point(0.0, 0.0), Point(width, 0.0)), t) == Point(t * width, 0.0);
  }

  lemma RightEdgeInCanvas(width: real, height: real, t: real)
    requires width >= 0.0 && height >= 0.0 && 0.0 < t < 1.0
    ensures InCanvas(Lerp(Boundary(Point(width, 0.0), Point(width, height)), t), width, height)
  {
    FractionOf(t, height);
    assert Lerp(Boundary(Point(width, 0.0), Point(width, height)), t) == Point(width, t * height);
  }

  lemma BottomEdgeInCanvas(width: real, height: real, t: real)
    requires width >= 0.0 && height >= 0.0 && 0.0 < t < 1.0
    ensures InCanvas(Lerp(Boundary(Point(width, height), Point(0.0, height)), t), width, height)
  {
    FractionOf(t, width);
    assert Lerp(Boundary(Point(width, height), Point(0.0, height)), t) == Point(width - t * width, height);
  }

  lemma LeftEdgeInCanvas(width: real, height: real, t: real)
    requires width >= 0.0 && height >= 0.0 && 0.0 < t < 1.0
    ensures InCanvas(Lerp(Boundary(Point(0.0, height), Point(0.0, 0.0)), t), width, height)
  {
    FractionOf(t, height);
    assert Lerp(Boundary(Point(0.0, height), Point(0.0, 0.0)), t) == Point(0.0, height - t * height);
  }

  lemma FractionOf(t: real, x: real)
    requires 0.0 < t < 1.0 && x >= 0.0
    ensures 0.0 <= t * x <= x
  {
    assert 0.0 <= t * x;
    assert 0.0 <= (1.0 - t) * x;
  }

  /** From the centre of the canvas, a ray that does not point exactly at a corner
      crosses some boundary wall strictly inside it. */
  lemma CentreRayHitsWall(width: real, height: real, dir: Point)
    requires width > 0.0 && height > 0.0
    requires Cross(dir, Point(width, height)) != 0.0 && Cross(dir, Point(width, -height)) != 0.0
    ensures exists k :: 0 <= k < 4 && Nearest.Hits(Centre(width, height), dir, BoundaryWalls(width, height)[k])
  {
    var walls := BoundaryWalls(width, height);
    var toCorner, toOther := Cross(dir, Point(width, height)), Cross(dir, Point(width, -height));
    if toCorner > 0.0 && toOther < 0.0 {
      RightEdgeHit(width, height, dir);
      assert Nearest.Hits(Centre(width, height), dir, walls[1]);
    } else if toCorner < 0.0 && toOther > 0.0 {
      LeftEdgeHit(width, height, dir);
      assert Nearest.Hits(Centre(width, height), dir, walls[3]);
    } else if toCorner > 0.0 {
      TopEdgeHit(width, height, dir);
      assert Nearest.Hits(Centre(width, height), dir, walls[0]);
    } else {
      BottomEdgeHit(width, height, dir);
      assert Nearest.Hits(Centre(width, height), dir, walls[2]);
    }
  }

  /** The particle at the centre of the four-wall scene: a ray not aimed exactly at a
      corner finds a nearest hit, and it lies on the canvas. */
  lemma CentreScene(width: real, height: real, dir: Point, closest: Option<Point>)
    requires width > 0.0 && height > 0.0
    requires Cross(dir, Point(width, height)) != 0.0 && Cross(dir, Point(width, -height)) != 0.0
    requires Nearest.IsClosest(Centre(width, height), dir, BoundaryWalls(width, height), closest)
    ensures closest.Some? && InCanvas(closest.value, width, height)
  {
    var c, walls := Centre(width, height), BoundaryWalls(width, height);
    CentreRayHitsWall(width, height, dir);
    var k: nat :| Nearest.NearestAmong(c, dir, walls, |walls|, k) && closest == Cast(c, dir, walls[k]);
    BoundaryHitInCanvas(width, height, c, dir, k);
  }

  /** A ray from the centre along either diagonal of the canvas meets every boundary wall
      at one of that diagonal's two corners, which are wall endpoints, so it finds no hit. */
  lemma CornerRayMisses(width: real, height: real, dir: Point, closest: Option<Point>)
    requires width > 0.0 && height > 0.0 && dir != Point(0.0, 0.0)
    requires Cross(dir, Point(width, height)) == 0.0 || Cross(dir, Point(width, -height)) == 0.0
    requires Nearest.IsClosest(Centre(width, height), dir, BoundaryWalls(width, height), closest)
    ensures closest == None
  {
    var c, walls := Centre(width, height), BoundaryWalls(width, height);
    forall j | 0 <= j < |walls| ensures !Nearest.Hits(c, dir, walls[j]) {
      if Cross(dir, Point(width, height)) == 0.0 {
        DiagonalCorners(width, height, dir);
        var u := width / (2.0 * dir.x);
        if j == 0 || j == 3 {
          CastExcludesEndpoints(c, dir, walls[j], -u);
        } else {
          CastExcludesEndpoints(c, dir, walls[j], u);
        }
      } else {
        AntiDiagonalCorners(width, height, dir);
        var u := width / (2.0 * dir.x);
        if j == 0 || j == 1 {
          CastExcludesEndpoints(c, dir, walls[j], u);
        } else {
          CastExcludesEndpoints(c, dir, walls[j], -u);
        }
      }
    }
  }

  /** Along the diagonal through (0,0) and (width, height), the centre reaches both corners. */
  lemma DiagonalCorners(width: real, height: real, dir: Point)
    requires width > 0.0 && height > 0.0 && dir != Point(0.0, 0.0)
    requires Cross(dir, Point(width, height)) == 0.0
    ensures dir.x != 0.0
    ensures Along(Centre(width, height), dir, width / (2.0 * dir.x)) == Point(width, height)
    ensures Along(Centre(width, height), dir, -(width / (2.0 * dir.x))) == Point(0.0, 0.0)
  {
    assert dir.y * width == dir.x * height;
    assert dir.x == 0.0 ==> dir.y == 0.0;
    var u := width / (2.0 * dir.x);
    assert u * (2.0 * dir.x) == width;
    assert u * dir.x == width / 2.0;
    assert (u * dir.y) * (2.0 * dir.x) == (height / 2.0) * (2.0 * dir.x) by {
      calc {
        (u * dir.y) * (2.0 * dir.x);
        (u * (2.0 * dir.x)) * dir.y;
        dir.y * width;
        (height / 2.0) * (2.0 * dir.x);
      }
    }
    CancelFactor(u * dir.y, height / 2.0, 2.0 * dir.x);
    assert (-u) * dir.x == -(width / 2.0) && (-u) * dir.y == -(height / 2.0);
  }

  /** Along the diagonal through (width, 0) and (0, height), the centre reaches both corners. */
  lemma AntiDiagonalCorners(width: real, height: real, dir: Point)
    requires width > 0.0 && height > 0.0 && dir != Point(0.0, 0.0)
    requires Cross(dir, Point(width, -height)) == 0.0
    ensures dir.x != 0.0
    ensures Along(Centre(width, height), dir, width / (2.0 * dir.x)) == Point(width, 0.0)
    ensures Along(Centre(width, height), dir, -(width / (2.0 * dir.x))) == Point(0.0, height)
  {
    assert dir.y * width == -(dir.x * height);
    assert dir.x == 0.0 ==> dir.y == 0.0;
    var u := width / (2.0 * dir.x);
    assert u * (2.0 * dir.x) == width;
    assert u * dir.x == width / 2.0;
    assert (u * dir.y) * (2.0 * dir.x) == (-(height / 2.0)) * (2.0 * dir.x) by {
      calc {
        (u * dir.y) * (2.0 * dir.x);
        (u * (2.0 * dir.x)) * dir.y;
        dir.y * width;
        (-(height / 2.0)) * (2.0 * dir.x);
      }
    }
    CancelFactor(u * dir.y, -(height / 2.0), 2.0 * dir.x);
    assert (-u) * dir.x == -(width / 2.0) && (-u) * dir.y == height / 2.0;
  }

  /** The centre of the canvas, where the particle starts. */
  function Centre(width: real, height: real): Point
  {
    Point(width / 2.0, height / 2.0)
  }

  lemma RightEdgeHit(width: real, height: real, dir: Point)
    requires width > 0.0 && height > 0.0
    requires -height * dir.x < width * dir.y < height * dir.x
    ensures Nearest.Hits(Centre(width, height), dir, BoundaryWalls(width, height)[1])
  {
    var c, wall := Centre(width, height), BoundaryWalls(width, height)[1];
    assert dir.x > 0.0;
    var t, u := 0.5 + (width * dir.y) / (2.0 * height * dir.x), width / (2.0 * dir.x);
    HalfRatio(width * dir.y, 2.0 * height * dir.x);
    assert u * dir.x == width / 2.0;
    assert t * height == height / 2.0 + u * dir.y;
    assert Meets(c, dir, wall, t, u);
    assert Crossing(c, dir, wall, t, u);
  }

  lemma LeftEdgeHit(width: real, height: real, dir: Point)
    requires width > 0.0 && height > 0.0
    requires height * dir.x < width * dir.y < -height * dir.x
    ensures Nearest.Hits(Centre(width, height), dir, BoundaryWalls(width, height)[3])
  {
    var c, wall := Centre(width, height), BoundaryWalls(width, height)[3];
    assert dir.x < 0.0;
    var t, u := 0.5 + (width * dir.y) / (2.0 * height * dir.x), -width / (2.0 * dir.x);
    HalfRatio(width * dir.y, 2.0 * height * dir.x);
    assert u * dir.x == -width / 2.0;
    assert height - t * height == height / 2.0 + u * dir.y;
    assert Meets(c, dir, wall, t, u);
    assert Crossing(c, dir, wall, t, u);
  }

  lemma TopEdgeHit(width: real, height: real, dir: Point)
    requires width > 0.0 && height > 0.0
    requires width * dir.y < height * dir.x < -width * dir.y
    ensures Nearest.Hits(Centre(width, height), dir, BoundaryWalls(width, height)[0])
  {
    var c, wall := Centre(width, height), BoundaryWalls(width, height)[0];
    assert dir.y < 0.0;
    var t, u := 0.5 - (height * dir.x) / (2.0 * width * dir.y), -height / (2.0 * dir.y);
    HalfRatio(height * dir.x, 2.0 * width * dir.y);
    assert u * dir.y == -height / 2.0;
    assert t * width == width / 2.0 + u * dir.x;
    assert Meets(c, dir, wall, t, u);
    assert Crossing(c, dir, wall, t, u);
  }

  lemma BottomEdgeHit(width: real, height: real, dir: Point)
    requires width > 0.0 && height > 0.0
    requires -width * dir.y < height * dir.x < width * dir.y
    ensures Nearest.Hits(Centre(width, height), dir, BoundaryWalls(width, height)[2])
  {
    var c, wall := Centre(width, height), BoundaryWalls(width, height)[2];
    assert dir.y > 0.0;
    var t, u := 0.5 - (height * dir.x) / (2.0 * width * dir.y), height / (2.0 * dir.y);
    HalfRatio(height * dir.x, 2.0 * width * dir.y);
    assert u * dir.y == height / 2.0;
    assert width - t * width == width / 2.0 + u * dir.x;
    assert Meets(c, dir, wall, t, u);
    assert Crossing(c, dir, wall, t, u);
  }

  lemma HalfRatio(n: real, d: real)
    requires (d > 0.0 && -d < 2.0 * n < d) || (d < 0.0 && d < 2.0 * n < -d)
    ensures -0.5 < n / d < 0.5
  {
    var q := n / d;
    assert q * d == n;
  }

  class Sketch {
    var walls: seq<Boundary>
    var particle: Particles.Particle?
    var isDrawing: bool
    var startPoint: Option<Point>  // None until the first press, like `let startPoint;`

    /** A drag in progress has a start point. */
    ghost predicate Valid()
      reads this
    {
      isDrawing ==> startPoint.Some?
    }

    /** The globals before `setup`. */
    constructor ()
      ensures Valid()
      ensures walls == [] && particle == null && !isDrawing && startPoint == None
    {
      walls, particle, isDrawing, startPoint := [], null, false, None;
    }

    /** `setup`: push the four boundary walls and create the particle. */
    method Setup(width: real, height: real, fromAngle: nat -> Point)
      requires Valid()
      modifies this
      ensures Valid()
      ensures walls == old(walls) + BoundaryWalls(width, height)
      ensures particle != null && fresh(particle) && fresh(particle.pos) && particle.Valid()
      ensures particle.pos.Value() == Point(width / 2.0, height / 2.0)
      ensures forall i :: 0 <= i < |particle.rays| ==> particle.rays[i].dir == fromAngle(i)
      ensures isDrawing == old(isDrawing) && startPoint == old(startPoint)
    {
      walls := walls + [Boundary(Point(0.0, 0.0), Point(width, 0.0))];
      walls := walls + [Boundary(Point(width, 0.0), Point(width, height))];
      walls := walls + [Boundary(Point(width, height), Point(0.0, height))];
      walls := walls + [Boundary(Point(0.0, height), Point(0.0, 0.0))];
      particle := new Particles.Particle(width, height, fromAngle);
    }

    /** The computing part of `draw`: move the particle to the pointer, then look.
        Every ray is cast from the new position. */
    method Draw(mouseX: real, mouseY: real) returns (hits: seq<Option<Point>>)
      requires particle != null && particle.Valid()
      modifies particle.pos
      ensures particle.Valid() && particle.rays == old(particle.rays)
      ensures particle.pos.Value() == Point(mouseX, mouseY)
      ensures |hits| == |particle.rays| == 360
      ensures forall i :: 0 <= i < |particle.rays| ==>
                Nearest.IsClosest(Point(mouseX, mouseY), particle.rays[i].dir, walls, hits[i])
    {
      particle.Update(mouseX, mouseY);
      hits := particle.Look(walls);
    }

    /** `mousePressed`: start a drag at the pointer. */
    method MousePressed(mouseX: real, mouseY: real)
      modifies this
      ensures Valid()
      ensures startPoint == Some(Point(mouseX, mouseY)) && isDrawing
      ensures walls == old(walls) && particle == old(particle)
    {
      startPoint := Some(Point(mouseX, mouseY));
      isDrawing := true;
    }

    /** `mouseReleased`: a drag in progress adds one wall, from its start to the pointer,
        at the end of the list, and ends; otherwise nothing changes. */
    method MouseReleased(mouseX: real, mouseY: real)
      requires Valid()
      modifies this
      ensures Valid() && !isDrawing
      ensures walls == if old(isDrawing)
                       then old(walls) + [Boundary(old(startPoint).value, Point(mouseX, mouseY))]
                       else old(walls)
      ensures startPoint == old(startPoint) && particle == old(particle)
    {
      if isDrawing {
        var endPoint := Point(mouseX, mouseY);
        walls := walls + [Boundary(startPoint.value, endPoint)];
        isDrawing := false;
      }
    }

    /** `keyPressed`: 'c' or 'C' keeps the first four walls; other keys change nothing. */
    method KeyPressed(key: char)
      modifies this
      ensures walls == if IsResetKey(key) then KeepBoundaries(old(walls)) else old(walls)
      ensures isDrawing == old(isDrawing) && startPoint == old(startPoint)
      ensures particle == old(particle)
    {
      if IsResetKey(key) {
        walls := KeepBoundaries(walls);
      }
    }
  }

  /** A session: set up, draw one wall by a drag, press 'c'; the boundary walls remain,
      in their original order. */
  method DrawThenReset(width: real, height: real, fromAngle: nat -> Point,
                       x0: real, y0: real, x1: real, y1: real)
    returns (s: Sketch)
    ensures s.walls == BoundaryWalls(width, height)
  {
    s := new Sketch();
    s.Setup(width, height, fromAngle);
    s.MousePressed(x0, y0);
    s.MouseReleased(x1, y1);
    assert s.walls == BoundaryWalls(width, height) + [Boundary(Point(x0, y0), Point(x1, y1))];
    s.KeyPressed('c');
    ResetRestoresBoundaries(width, height, [Boundary(Point(x0, y0), Point(x1, y1))]);
  }
}
