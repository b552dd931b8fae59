/** Exact plane geometry used by the polygon engine: points with real
    coordinates, squared distance, midpoint, centroid of a triangle and the
    determinant line-line intersection. */
module Geometry {
  import opened Wrappers

  /** A clicked position in canvas pixel space (y grows downward). */
  datatype Point = Point(x: real, y: real)

  /** Orientation determinant of q against the line through a and b:
      zero exactly when the three points lie on one line. */
  function Orient(a: Point, b: Point, q: Point): real
  {
    (b.x - a.x) * (q.y - a.y) - (b.y - a.y) * (q.x - a.x)
  }

  /** q lies on the line through a and b. */
  predicate OnLine(a: Point, b: Point, q: Point)
  {
    Orient(a, b, q) == 0.0
  }

  /** The 2D cross product of two position vectors: the term a directed
      edge p -> q contributes to the shoelace sum, and the constant term of
      the equation of the line through p and q. */
  function Cross(p: Point, q: Point): real
  {
    p.x * q.y - p.y * q.x
  }

  /** A sum of two squares is never negative. */
  lemma SumSquaresNonNegative(a: real, b: real)
    ensures a * a + b * b >= 0.0
  {
    if a < 0.0 {
      assert (-a) * (-a) > 0.0;
      assert a * a == (-a) * (-a);
    }
    if b < 0.0 {
      assert (-b) * (-b) > 0.0;
      assert b * b == (-b) * (-b);
    }
  }

  /** The edge length before the square root: the sum of the squared
      coordinate differences, in the order the source writes them. */
  function SqDist(p: Point, q: Point): real
  {
    (q.x - p.x) * (q.x - p.x) + (p.y - q.y) * (p.y - q.y)
  }

  /** Squared length does not depend on the direction an edge is walked,
      is never negative, and is zero for a repeated click. */
  lemma SqDistProperties(p: Point, q: Point)
    ensures SqDist(p, q) == SqDist(q, p)
    ensures SqDist(p, q) >= 0.0
    ensures p == q ==> SqDist(p, q) == 0.0
  {
    assert (q.x - p.x) * (q.x - p.x) == (p.x - q.x) * (p.x - q.x);
    assert (p.y - q.y) * (p.y - q.y) == (q.y - p.y) * (q.y - p.y);
    SumSquaresNonNegative(q.x - p.x, p.y - q.y);
  }

  /** The midpoint: the step from p to m is the step from m to q. */
  function Midpoint(p: Point, q: Point): (m: Point)
    ensures m.x - p.x == q.x - m.x && m.y - p.y == q.y - m.y
  {
    Point((p.x + q.x) / 2.0, (p.y + q.y) / 2.0)
  }

  /** The midpoint lies on the segment's line, halfway: it is as far from
      either end, and a quarter of the squared length from each. */
  lemma MidpointHalfway(p: Point, q: Point)
    ensures var m := Midpoint(p, q);
      OnLine(p, q, m) && SqDist(p, m) == SqDist(m, q) && 4.0 * SqDist(p, m) == SqDist(p, q)
  {
    var m := Midpoint(p, q);
    var hx, hy := m.x - p.x, m.y - p.y;
    assert q.x - p.x == 2.0 * hx && q.y - p.y == 2.0 * hy;
    assert Orient(p, q, m) == (2.0 * hx) * hy - (2.0 * hy) * hx;
    assert SqDist(p, m) == hx * hx + hy * hy;
    assert SqDist(m, q) == hx * hx + hy * hy;
    assert SqDist(p, q) == (2.0 * hx) * (2.0 * hx) + (2.0 * hy) * (2.0 * hy);
  }

  /** The centroid of a triangle: the point whose offsets to the three
      vertices cancel out, coordinate by coordinate. */
  function Centroid(a: Point, b: Point, c: Point): (g: Point)
    ensures (a.x - g.x) + (b.x - g.x) + (c.x - g.x) == 0.0
    ensures (a.y - g.y) + (b.y - g.y) + (c.y - g.y) == 0.0
  {
    Point((a.x + b.x + c.x) / 3.0, (a.y + b.y + c.y) / 3.0)
  }

  /** The point a fraction t of the way from p to q. */
  function Along(p: Point, q: Point, t: real): Point
  {
    Point(p.x + t * (q.x - p.x), p.y + t * (q.y - p.y))
  }

  /** Only the centroid balances the three vertices, and it sits two thirds
      of the way along each median. */
  lemma CentroidCharacterized(a: Point, b: Point, c: Point, g: Point)
    ensures g == Centroid(a, b, c) <==>
      (a.x - g.x) + (b.x - g.x) + (c.x - g.x) == 0.0 && (a.y - g.y) + (b.y - g.y) + (c.y - g.y) == 0.0
    ensures Centroid(a, b, c) == Along(a, Midpoint(b, c), 2.0 / 3.0)
    ensures Centroid(a, b, c) == Along(b, Midpoint(c, a), 2.0 / 3.0)
    ensures Centroid(a, b, c) == Along(c, Midpoint(a, b), 2.0 / 3.0)
  {
  }

  /** The triangle (0,0), (6,0), (0,6) has its centroid at (2,2). */
  lemma CentroidExample()
    ensures Centroid(Point(0.0, 0.0), Point(6.0, 0.0), Point(0.0, 6.0)) == Point(2.0, 2.0)
  {
  }

  /** The 2x2 determinant of the two lines' direction vectors: zero exactly
      when the line p1-p2 is parallel to the line p3-p4. */
  function Denom(p1: Point, p2: Point, p3: Point, p4: Point): real
  {
    (p1.x - p2.x) * (p3.y - p4.y) - (p1.y - p2.y) * (p3.x - p4.x)
  }

  /** Membership of q in the line through a and b, rearranged as the linear
      equation dy * q.x - dx * q.y == -Cross(a, b). */
  lemma OnLineAsEquation(a: Point, b: Point, q: Point)
    ensures OnLine(a, b, q) <==>
      (a.y - b.y) * q.x - (a.x - b.x) * q.y == -Cross(a, b)
  {
    assert Orient(a, b, q) == (a.y - b.y) * q.x - (a.x - b.x) * q.y + Cross(a, b);
  }

  /** The determinant formula for the crossing point of two non-parallel lines. */
  function Crossing(p1: Point, p2: Point, p3: Point, p4: Point): (q: Point)
    requires Denom(p1, p2, p3, p4) != 0.0
    ensures OnLine(p1, p2, q) && OnLine(p3, p4, q)
  {
    var d := Denom(p1, p2, p3, p4);
    var a := Cross(p1, p2);
    var b := Cross(p3, p4);
    var nx := a * (p3.x - p4.x) - (p1.x - p2.x) * b;
    var ny := a * (p3.y - p4.y) - (p1.y - p2.y) * b;
    var q := Point(nx / d, ny / d);
    CrossingSolves(p1.x - p2.x, p1.y - p2.y, p3.x - p4.x, p3.y - p4.y, a, b, nx, ny, d);
    OnLineAsEquation(p1, p2, q);
    OnLineAsEquation(p3, p4, q);
    q
  }

  /** Cramer's rule for the system dy1 * X - dx1 * Y == -a,
      dy2 * X - dx2 * Y == -b with determinant d. */
  lemma CrossingSolves(dx1: real, dy1: real, dx2: real, dy2: real, a: real, b: real,
                       nx: real, ny: real, d: real)
    requires d == dx1 * dy2 - dy1 * dx2 && d != 0.0
    requires nx == a * dx2 - dx1 * b && ny == a * dy2 - dy1 * b
    ensures dy1 * (nx / d) - dx1 * (ny / d) == -a
    ensures dy2 * (nx / d) - dx2 * (ny / d) == -b
  {
    assert dy1 * nx - dx1 * ny == -a * d;
    assert dy2 * nx - dx2 * ny == -b * d;
    assert dy1 * (nx / d) - dx1 * (ny / d) == (dy1 * nx - dx1 * ny) / d;
    assert dy2 * (nx / d) - dx2 * (ny / d) == (dy2 * nx - dx2 * ny) / d;
  }

  /** Intersection of the line p1-p2 with the line p3-p4: absent exactly
      when the lines are parallel, and otherwise a point on both lines. */
  function Intersection(p1: Point, p2: Point, p3: Point, p4: Point): (r: Option<Point>)
    ensures r.None? <==> Denom(p1, p2, p3, p4) == 0.0
    ensures r.Some? ==> OnLine(p1, p2, r.value) && OnLine(p3, p4, r.value)
  {
    if Denom(p1, p2, p3, p4) == 0.0 then None else Some(Crossing(p1, p2, p3, p4))
  }

  /** Two non-parallel lines meet in one point only: any point on both
      lines is the one Intersection returns. */
  lemma IntersectionUnique(p1: Point, p2: Point, p3: Point, p4: Point, q: Point)
    requires Denom(p1, p2, p3, p4) != 0.0
    requires OnLine(p1, p2, q) && OnLine(p3, p4, q)
    ensures Intersection(p1, p2, p3, p4) == Some(q)
  {
    var c := Crossing(p1, p2, p3, p4);
    OnLineAsEquation(p1, p2, q);
    OnLineAsEquation(p3, p4, q);
    OnLineAsEquation(p1, p2, c);
    OnLineAsEquation(p3, p4, c);
    var dx1, dy1, dx2, dy2 := p1.x - p2.x, p1.y - p2.y, p3.x - p4.x, p3.y - p4.y;
    var u, v := q.x - c.x, q.y - c.y;
    assert dy1 * u == dx1 * v;
    assert dy2 * u == dx2 * v;
    var d := Denom(p1, p2, p3, p4);
    assert d == dx1 * dy2 - dy1 * dx2;
    assert d * u == dx1 * (dy2 * u) - dx2 * (dy1 * u);
    assert d * u == dx1 * (dx2 * v) - dx2 * (dx1 * v);
    assert d * v == dy2 * (dx1 * v) - dy1 * (dx2 * v);
    assert d * v == dy2 * (dy1 * u) - dy1 * (dy2 * u);
    assert u == 0.0 && v == 0.0;
  }

  /** Two lines through a common vertex p meet at p unless they are parallel;
      they are parallel exactly when p, q and s are collinear. */
  lemma SharedVertexIntersection(p: Point, q: Point, s: Point)
    ensures Intersection(p, q, p, s).None? <==> OnLine(p, q, s)
    ensures Intersection(p, q, p, s).Some? ==> Intersection(p, q, p, s) == Some(p)
  {
    assert Denom(p, q, p, s) == Orient(p, q, s);
    if Denom(p, q, p, s) != 0.0 {
      assert OnLine(p, q, p) && OnLine(p, s, p);
      IntersectionUnique(p, q, p, s, p);
    }
  }
}
