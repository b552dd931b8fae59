/** The polygon engine: the clicked vertex list, the edge annotation each
    click produces, and the finish step, which branches on the vertex count
    (nothing below three, the centroid for a triangle, and for a larger
    polygon the closing edge, the diagonals, their meeting point A, the
    midpoints between each vertex and A, and the area). */
module Engine {
  import opened Wrappers
  import opened Geometry
  import opened Shoelace
  import opened PolygonDiagonals

  /** An annotated edge: its end points, its squared length (the label
      shows the square root, to two decimals) and the midpoint of the edge,
      where the length label is anchored. */
  datatype Edge = Edge(from: Point, to: Point, squaredLength: real, labelAt: Point)

  function EdgeBetween(a: Point, b: Point): Edge
  {
    Edge(a, b, SqDist(a, b), Midpoint(a, b))
  }

  /** What the finish step produces. `Polygon.midpoints[i]` is the point
      labelled P(i+1). `Aborted` is what the source does when the first two
      diagonals are parallel: the midpoint loop dereferences the missing
      point A, so the handler stops after drawing the closing edge and the
      diagonals, and the area is never shown. */
  datatype FinishResult =
    | TooFew
    | Triangle(centroid: Point)
    | Polygon(closing: Edge, diagonals: seq<(nat, nat)>, meeting: Option<Point>,
              midpoints: seq<Point>, area: real)
    | Aborted(closing: Edge, diagonals: seq<(nat, nat)>)

  /** Point A: the intersection of the lines through the first two
      diagonals in enumeration order. */
  function FirstIntersection(pts: seq<Point>): (a: Option<Point>)
    requires |pts| >= 4
    ensures |pts| == 4 ==> a == Intersection(pts[0], pts[2], pts[1], pts[3])
    ensures |pts| >= 5 ==> (a.None? <==> OnLine(pts[0], pts[2], pts[3]))
    ensures |pts| >= 5 && a.Some? ==> a.value == pts[0]
  {
    FirstTwoDiagonals(|pts|);
    var d := Diagonals(|pts|);
    SharedVertexIntersection(pts[0], pts[2], pts[3]);
    Intersection(pts[d[0].0], pts[d[0].1], pts[d[1].0], pts[d[1].1])
  }

  /** The midpoints between every vertex and the point a, in vertex order. */
  function MidpointsTo(pts: seq<Point>, a: Point): seq<Point>
  {
    seq(|pts|, i requires 0 <= i < |pts| => Midpoint(pts[i], a))
  }

  /** The finish step with the midpoints skipped when A does not exist:
      it never aborts, and from four vertices on it always reports the area. */
  function FinishOutcome(pts: seq<Point>): (r: FinishResult)
    ensures r.TooFew? <==> |pts| < 3
    ensures r.Triangle? <==> |pts| == 3
    ensures r.Polygon? <==> |pts| > 3
    ensures !r.Aborted?
    ensures r.Triangle? ==> r.centroid == Centroid(pts[0], pts[1], pts[2])
    ensures r.Polygon? ==> r.closing == EdgeBetween(pts[|pts| - 1], pts[0])
    ensures r.Polygon? ==> r.diagonals == Diagonals(|pts|) && r.area == Area(pts)
    ensures r.Polygon? ==> r.meeting == FirstIntersection(pts)
    ensures r.Polygon? && r.meeting.Some? ==> r.midpoints == MidpointsTo(pts, r.meeting.value)
    ensures r.Polygon? ==> (r.midpoints == [] <==> r.meeting.None?)
  {
    if |pts| < 3 then TooFew
    else if |pts| == 3 then Triangle(Centroid(pts[0], pts[1], pts[2]))
    else
      var a := FirstIntersection(pts);
      Polygon(EdgeBetween(pts[|pts| - 1], pts[0]), Diagonals(|pts|), a,
              if a.Some? then MidpointsTo(pts, a.value) else [], Area(pts))
  }

  /** The finish step as the source writes it: the midpoint loop runs
      whether or not A exists, and with A missing the handler aborts after
      the closing edge and the diagonals, before the area. */
  function FinishOutcomeAsWritten(pts: seq<Point>): (r: FinishResult)
    ensures r.TooFew? <==> |pts| < 3
    ensures r.Triangle? <==> |pts| == 3
    ensures r.Aborted? <==> |pts| >= 4 && FirstIntersection(pts).None?
    ensures r.Polygon? <==> |pts| >= 4 && FirstIntersection(pts).Some?
    ensures r.Aborted? ==>
      r.closing == EdgeBetween(pts[|pts| - 1], pts[0]) && r.diagonals == Diagonals(|pts|)
    ensures r.Polygon? ==> r.area == Area(pts) && r.meeting.Some? && r.midpoints == MidpointsTo(pts, r.meeting.value)
  {
    if |pts| < 3 then TooFew
    else if |pts| == 3 then Triangle(Centroid(pts[0], pts[1], pts[2]))
    else
      var a := FirstIntersection(pts);
      if a.None? then Aborted(EdgeBetween(pts[|pts| - 1], pts[0]), Diagonals(|pts|))
      else Polygon(EdgeBetween(pts[|pts| - 1], pts[0]), Diagonals(|pts|), a,
                   MidpointsTo(pts, a.value), Area(pts))
  }

  /** The loop that labels the midpoint between each vertex and A. */
  method MidpointLoop(pts: seq<Point>, a: Point) returns (mids: seq<Point>)
    ensures mids == MidpointsTo(pts, a)
  {
    mids := [];
    var i := 0;
    while i < |pts|
      invariant 0 <= i <= |pts|
      invariant |mids| == i
      invariant forall k :: 0 <= k < i ==> mids[k] == Midpoint(pts[k], a)
    {
      mids := mids + [Midpoint(pts[i], a)];
      i := i + 1;
    }
    assert mids == MidpointsTo(pts, a);
  }

  /** The diagonals step: enumerate the diagonals, intersect the first two,
      and, when they meet, take the midpoint from each vertex to A. */
  method DrawDiagonals(pts: seq<Point>) returns (diagonals: seq<(nat, nat)>, a: Option<Point>, mids: seq<Point>)
    ensures |pts| < 4 ==> diagonals == [] && a == None && mids == []
    ensures |pts| >= 4 ==> diagonals == Diagonals(|pts|) && a == FirstIntersection(pts)
    ensures a.Some? ==> mids == MidpointsTo(pts, a.value)
    ensures a.None? ==> mids == []
  {
    diagonals, a, mids := [], None, [];
    if |pts| >= 4 {
      diagonals := EnumerateDiagonals(|pts|);
      FirstTwoDiagonals(|pts|);
      a := Intersection(pts[diagonals[0].0], pts[diagonals[0].1], pts[diagonals[1].0], pts[diagonals[1].1]);
      if a.Some? {
        mids := MidpointLoop(pts, a.value);
      }
    }
  }

  /** The session's vertex list. Clicks append to it; nothing else changes it. */
  class PolygonEngine {
    var points: seq<Point>

    constructor ()
      ensures points == []
    {
      points := [];
    }

    /** A click: the point is appended, and from the second point on the
        edge from the previous point to the new one is annotated. */
    method AddPoint(p: Point) returns (edge: Option<Edge>)
      modifies this
      ensures points == old(points) + [p]
      ensures edge.Some? <==> |old(points)| >= 1
      ensures edge.Some? ==> edge.value.from == old(points)[|old(points)| - 1] && edge.value.to == p
      ensures edge.Some? ==> edge.value.squaredLength == SqDist(edge.value.from, p)
      ensures edge.Some? ==> edge.value.labelAt == Midpoint(edge.value.from, p)
    {
      points := points + [p];
      if |points| > 1 {
        edge := Some(EdgeBetween(points[|points| - 2], points[|points| - 1]));
      } else {
        edge := None;
      }
    }

    /** The finish button. It reads the vertex list and changes nothing. */
    method Finish() returns (r: FinishResult)
      ensures r == FinishOutcome(points)
      ensures r.TooFew? <==> |points| < 3
      ensures r.Triangle? <==> |points| == 3
      ensures r.Polygon? <==> |points| > 3
      ensures r.Triangle? ==> r.centroid == Centroid(points[0], points[1], points[2])
      ensures r.Polygon? ==> r.closing == EdgeBetween(points[|points| - 1], points[0])
      ensures r.Polygon? ==> r.diagonals == Diagonals(|points|) && r.area == Area(points)
      ensures r.Polygon? ==> r.meeting == FirstIntersection(points)
      ensures r.Polygon? && r.meeting.Some? ==> r.midpoints == MidpointsTo(points, r.meeting.value)
      ensures r.Polygon? && r.meeting.None? ==> r.midpoints == []
    {
      var n := |points|;
      if n == 3 {
        r := Triangle(Centroid(points[0], points[1], points[2]));
      } else if n > 3 {
        var closing := EdgeBetween(points[n - 1], points[0]);
        var diagonals, a, mids := DrawDiagonals(points);
        var area := PolygonArea(points);
        r := Polygon(closing, diagonals, a, mids, area);
      } else {
        r := TooFew;
      }
    }
  }

  /** The as-written finish step aborts exactly when the first two diagonals
      are parallel, and otherwise agrees with the corrected one; below four
      points the two never differ. */
  lemma AsWrittenAbortsOnParallelDiagonals(pts: seq<Point>)
    ensures FinishOutcomeAsWritten(pts).Aborted? <==> |pts| >= 4 && FirstIntersection(pts).None?
    ensures !FinishOutcomeAsWritten(pts).Aborted? ==> FinishOutcomeAsWritten(pts) == FinishOutcome(pts)
    ensures !FinishOutcome(pts).Aborted?
  {
  }

  /** A pentagon whose vertices 0, 2 and 3 lie on the line y = x, as
      when a traced boundary has a corner on the line through two others:
      (0,0), (c,0), (c,c), (2c,2c), (0,2c). */
  function CollinearPentagon(c: real): seq<Point>
  {
    [Point(0.0, 0.0), Point(c, 0.0), Point(c, c), Point(2.0 * c, 2.0 * c), Point(0.0, 2.0 * c)]
  }

  /** For the pentagon above the diagonals (0,2) and (0,3) are parallel, so
      the source aborts and never shows the area, while the corrected step
      skips the midpoints and shows the area (250 for c = 10). */
  lemma CollinearPentagonAborts(c: real)
    ensures FinishOutcomeAsWritten(CollinearPentagon(c)).Aborted?
    ensures FinishOutcome(CollinearPentagon(c)).Polygon?
    ensures FinishOutcome(CollinearPentagon(c)).meeting == None
    ensures FinishOutcome(CollinearPentagon(c)).midpoints == []
    ensures FinishOutcome(CollinearPentagon(c)).area == Area(CollinearPentagon(c))
    ensures c == 10.0 ==> Area(CollinearPentagon(c)) == 250.0
  {
    var pts := CollinearPentagon(c);
    assert Orient(pts[0], pts[2], pts[3]) == c * (2.0 * c) - c * (2.0 * c);
    assert OnLine(pts[0], pts[2], pts[3]);
    CollinearPentagonSum(c);
  }

  lemma CollinearPentagonSum(c: real)
    ensures ShoelaceSum(CollinearPentagon(c)) == 5.0 * (c * c)
  {
    var pts := CollinearPentagon(c);
    assert PartialSum(pts, 1) == Cross(pts[0], pts[1]) == 0.0;
    assert PartialSum(pts, 2) == PartialSum(pts, 1) + Cross(pts[1], pts[2]);
    assert Cross(pts[1], pts[2]) == c * c;
    assert PartialSum(pts, 3) == PartialSum(pts, 2) + Cross(pts[2], pts[3]);
    assert Cross(pts[2], pts[3]) == 0.0;
    assert PartialSum(pts, 4) == PartialSum(pts, 3) + Cross(pts[3], pts[4]);
    assert Cross(pts[3], pts[4]) == 4.0 * (c * c);
    assert PartialSum(pts, 5) == PartialSum(pts, 4) + Cross(pts[4], pts[0]);
    assert Cross(pts[4], pts[0]) == 0.0;
  }

  /** The corrected finish step always reports the area of a polygon with
      more than three vertices, and reports midpoints exactly when A exists. */
  lemma FinishAlwaysReportsArea(pts: seq<Point>)
    requires |pts| > 3
    ensures FinishOutcome(pts).Polygon?
    ensures FinishOutcome(pts).area == Area(pts)
    ensures FinishOutcome(pts).meeting.Some? <==> FinishOutcome(pts).midpoints != []
  {
  }

  /** For the square (0,0), (s,0), (s,s), (0,s) with s != 0 the two
      diagonals cross at the centre (s/2, s/2); for side 10 that is (5,5). */
  lemma SquareDiagonalsMeet(s: real)
    requires s != 0.0
    ensures FirstIntersection(Square(s)) == Some(Point(s / 2.0, s / 2.0))
    ensures s == 10.0 ==> FirstIntersection(Square(s)) == Some(Point(5.0, 5.0))
  {
    var sq := Square(s);
    var q := Point(s / 2.0, s / 2.0);
    if s > 0.0 {
      assert s * s > 0.0;
    } else {
      assert (-s) * (-s) > 0.0;
    }
    assert Denom(sq[0], sq[2], sq[1], sq[3]) == 2.0 * (s * s);
    assert Orient(sq[0], sq[2], q) == s * (s / 2.0) - s * (s / 2.0);
    assert Orient(sq[1], sq[3], q) == (0.0 - s) * (s / 2.0) - s * (s / 2.0 - s);
    IntersectionUnique(sq[0], sq[2], sq[1], sq[3], q);
  }
}
