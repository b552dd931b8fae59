/** The shoelace area of the clicked polygon. The source accumulates the
    sum in a loop over the vertices in click order, wrapping from the last
    vertex back to the first; `Chain` is an independent reference definition
    (the sum along an open path) used to prove that the sum does not depend
    on where the vertex list starts and changes sign when it is reversed. */
module Shoelace {
  import opened Geometry

  /** Term i of the loop: vertex i against the next one, wrapping at the end. */
  function Term(pts: seq<Point>, i: nat): real
    requires i < |pts|
  {
    Cross(pts[i], pts[(i + 1) % |pts|])
  }

  /** The sum after the loop has added terms 0 .. k-1. */
  function PartialSum(pts: seq<Point>, k: nat): real
    requires k <= |pts|
  {
    if k == 0 then 0.0 else PartialSum(pts, k - 1) + Term(pts, k - 1)
  }

  /** The signed sum, twice the signed area of the polygon. */
  function ShoelaceSum(pts: seq<Point>): real
  {
    PartialSum(pts, |pts|)
  }

  function Abs(r: real): real
  {
    if r < 0.0 then -r else r
  }

  /** The unrounded area the finish step displays. */
  function Area(pts: seq<Point>): real
  {
    Abs(ShoelaceSum(pts) / 2.0)
  }

  /** The accumulation loop of the area computation. */
  method PolygonArea(pts: seq<Point>) returns (area: real)
    ensures area == Area(pts)
    ensures area >= 0.0
  {
    var sum := 0.0;
    var n := |pts|;
    var i := 0;
    while i < n
      invariant 0 <= i <= n
      invariant sum == PartialSum(pts, i)
    {
      var x1, y1 := pts[i].x, pts[i].y;
      var x2, y2 := pts[(i + 1) % n].x, pts[(i + 1) % n].y;
      sum := sum + (x1 * y2 - y1 * x2);
      i := i + 1;
    }
    area := Abs(sum / 2.0);
  }

  /** Reference definition: the sum of Cross over the consecutive pairs of
      an open path (no wrap-around). */
  function Chain(s: seq<Point>): real
  {
    if |s| < 2 then 0.0 else Chain(s[..|s| - 1]) + Cross(s[|s| - 2], s[|s| - 1])
  }

  /** The closed path: the open path with the first vertex repeated at the end. */
  function Closed(s: seq<Point>): real
  {
    if s == [] then 0.0 else Chain(s + [s[0]])
  }

  /** Term i is the Cross of positions i and i + 1 of the closed walk. */
  lemma TermOfClosedWalk(pts: seq<Point>, i: nat)
    requires i < |pts|
    ensures Term(pts, i) == Cross((pts + [pts[0]])[i], (pts + [pts[0]])[i + 1])
  {
    var w := pts + [pts[0]];
    assert w[i] == pts[i];
    if i + 1 < |pts| {
      assert (i + 1) % |pts| == i + 1;
    } else {
      assert (i + 1) % |pts| == 0;
    }
  }

  lemma {:induction false} PartialSumIsChain(pts: seq<Point>, k: nat)
    requires 0 < |pts| && k <= |pts|
    ensures PartialSum(pts, k) == Chain((pts + [pts[0]])[..k + 1])
  {
    var w := pts + [pts[0]];
    if k > 0 {
      PartialSumIsChain(pts, k - 1);
      var prefix := w[..k + 1];
      assert prefix[..k] == w[..k];
      TermOfClosedWalk(pts, k - 1);
      assert prefix[k - 1] == w[k - 1] && prefix[k] == w[k];
    }
  }

  /** The loop's sum is the closed-path sum of the reference definition. */
  lemma ShoelaceIsClosedChain(pts: seq<Point>)
    ensures ShoelaceSum(pts) == Closed(pts)
  {
    if pts != [] {
      PartialSumIsChain(pts, |pts|);
      assert (pts + [pts[0]])[..|pts| + 1] == pts + [pts[0]];
    }
  }

  /** Joining two open paths adds the edge between them. */
  lemma {:induction false} ChainAppend(u: seq<Point>, v: seq<Point>)
    requires |u| >= 1 && |v| >= 1
    ensures Chain(u + v) == Chain(u) + Cross(u[|u| - 1], v[0]) + Chain(v)
    decreases |v|
  {
    if |v| == 1 {
      assert (u + v)[..|u + v| - 1] == u;
    } else {
      var v' := v[..|v| - 1];
      ChainAppend(u, v');
      assert (u + v)[..|u + v| - 1] == u + v';
      assert v'[0] == v[0];
    }
  }

  /** The list with its first vertex moved to the end. */
  function Rotate(s: seq<Point>): (r: seq<Point>)
    requires s != []
  {
    s[1..] + [s[0]]
  }

  /** Starting the walk at the second vertex leaves the sum unchanged. */
  lemma ShoelaceRotate(s: seq<Point>)
    requires s != []
    ensures ShoelaceSum(Rotate(s)) == ShoelaceSum(s)
  {
    ShoelaceIsClosedChain(s);
    ShoelaceIsClosedChain(Rotate(s));
    var a, t := s[0], s[1..];
    if t != [] {
      assert s + [s[0]] == [a] + (t + [a]);
      ChainAppend([a], t + [a]);
      ChainAppend(t, [a]);
      assert Rotate(s) + [Rotate(s)[0]] == t + [a, t[0]];
      ChainAppend(t, [a, t[0]]);
      assert [a, t[0]][..1] == [a];
    } else {
      assert Rotate(s) == s;
    }
  }

  /** The list started at vertex k instead of vertex 0. */
  function RotateBy(s: seq<Point>, k: nat): seq<Point>
    requires k <= |s|
  {
    s[k..] + s[..k]
  }

  /** Whichever vertex the user clicked first, the sum is the same. */
  lemma {:induction false} ShoelaceRotateBy(s: seq<Point>, k: nat)
    requires k <= |s|
    ensures ShoelaceSum(RotateBy(s, k)) == ShoelaceSum(s)
  {
    if k == 0 {
      assert RotateBy(s, 0) == s;
    } else {
      ShoelaceRotateBy(s, k - 1);
      var r := RotateBy(s, k - 1);
      assert r[0] == s[k - 1];
      assert Rotate(r) == RotateBy(s, k);
      ShoelaceRotate(r);
    }
  }

  /** The vertex list in the opposite order. */
  function Reverse(s: seq<Point>): (r: seq<Point>)
  {
    seq(|s|, i requires 0 <= i < |s| => s[|s| - 1 - i])
  }

  /** Walking an open path backwards negates its sum. */
  lemma {:induction false} ChainReverse(s: seq<Point>)
    ensures Chain(Reverse(s)) == -Chain(s)
    decreases |s|
  {
    if |s| >= 2 {
      var a, t := s[0], s[1..];
      ChainReverse(t);
      assert Reverse(s) == Reverse(t) + [a];
      assert s == [a] + t;
      ChainAppend(Reverse(t), [a]);
      ChainAppend([a], t);
      assert Reverse(t)[|t| - 1] == t[0];
    } else {
      assert Reverse(s) == s;
    }
  }

  /** Listing the vertices in the opposite order negates the sum. */
  lemma ShoelaceReverse(s: seq<Point>)
    ensures ShoelaceSum(Reverse(s)) == -ShoelaceSum(s)
  {
    ShoelaceIsClosedChain(s);
    ShoelaceIsClosedChain(Reverse(s));
    if s != [] {
      var last := s[|s| - 1];
      assert Reverse(s) + [Reverse(s)[0]] == Reverse([last] + s);
      ChainReverse([last] + s);
      ChainAppend([last], s);
      ChainAppend(s, [s[0]]);
    }
  }

  /** The displayed area is the same for every starting vertex and for
      both orientations of the vertex list. */
  lemma AreaInvariant(s: seq<Point>, k: nat)
    requires k <= |s|
    ensures Area(RotateBy(s, k)) == Area(s)
    ensures Area(Reverse(s)) == Area(s)
  {
    ShoelaceRotateBy(s, k);
    ShoelaceReverse(s);
  }

  /** An axis-aligned square of the given side, traced counter-clockwise
      from the origin. */
  function Square(side: real): seq<Point>
  {
    [Point(0.0, 0.0), Point(side, 0.0), Point(side, side), Point(0.0, side)]
  }

  /** The shoelace sum of a square is twice its side squared; for the
      square (0,0), (10,0), (10,10), (0,10) the area is 100. */
  lemma SquareArea(side: real)
    ensures ShoelaceSum(Square(side)) == 2.0 * (side * side)
    ensures side == 10.0 ==> Area(Square(side)) == 100.0
  {
    var sq := Square(side);
    assert PartialSum(sq, 1) == Cross(sq[0], sq[1]) == 0.0;
    assert PartialSum(sq, 2) == PartialSum(sq, 1) + Cross(sq[1], sq[2]) == side * side;
    assert PartialSum(sq, 3) == PartialSum(sq, 2) + Cross(sq[2], sq[3]);
    assert Cross(sq[2], sq[3]) == side * side;
    assert PartialSum(sq, 4) == PartialSum(sq, 3) + Cross(sq[3], sq[0]);
    assert Cross(sq[3], sq[0]) == 0.0;
  }
}
