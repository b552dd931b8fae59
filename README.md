# Polygon geometry engine (script.js)

This project models the geometry of a browser page where the user clicks
points on a camera overlay to trace a polygon, in exact real arithmetic.

- **Clicks.** Each click appends a vertex. From the second vertex on, the
  edge from the previous vertex is annotated with its length, anchored at the
  edge's midpoint.
- **Finish.** The finish button branches on the vertex count:
  - below three vertices it does nothing;
  - for a triangle it computes the centroid;
  - for four or more vertices it computes:
    - the closing edge from the last vertex back to the first;
    - every diagonal, in the order the nested loops emit them;
    - the point A where the lines of the first two diagonals cross, if they are not parallel;
    - the midpoint between each vertex and A;
    - the shoelace area.

Modules:

- `Wrappers`: an `Option` type. `None` plays the part of the source's `null`.
- `Geometry`:
  - points;
  - squared distance;
  - midpoint;
  - triangle centroid;
  - the determinant line–line intersection.
- `Shoelace`:
  - the area loop, proved against a recursive sum;
  - an independent open-path reference sum, used to prove that the sum does
    not depend on the starting vertex and changes sign when the order is reversed.
- `PolygonDiagonals`: the nested diagonal loops, proved against a recursive
  specification. The model proves:
  - the emitted pairs are exactly the diagonals of an n-gon;
  - they come out in lexicographic order without repeats;
  - there are n(n-3)/2 of them;
  - which two come first.
- `Engine`:
  - the edge annotation;
  - the finish outcome;
  - the class `PolygonEngine`, which holds the clicked vertex list;
  - the finding below.

For a quadrilateral the first two emitted diagonals are (0,2) and (1,3), so A
is the crossing of the two diagonals. From five vertices on they are (0,2) and (0,3). Both start at
vertex 0, so A is vertex 0 itself unless vertices 0, 2 and 3 are collinear.

## Model

| member | source | states |
|---|---|---|
| Geometry.SqDistProperties | script.js:166-168 | the squared edge length is the same in both directions, never negative, and zero for a repeated point |
| Geometry.Midpoint | script.js:214-216 | the step from the first point to the midpoint equals the step from the midpoint to the second point, per coordinate |
| Geometry.MidpointHalfway | script.js:171-173 | the label anchor lies on the edge's line, equally far from both ends, at a quarter of the squared length from each |
| Geometry.Centroid | script.js:153-163 | the centroid's offsets to the three vertices sum to zero in each coordinate |
| Geometry.CentroidCharacterized | script.js:153-163 | only the centroid balances the three vertices, and it lies two thirds of the way along each median |
| Geometry.CentroidExample | script.js:159-160 | the triangle (0,0), (6,0), (0,6) has its centroid at (2,2) |
| Geometry.Crossing | script.js:207-210 | for non-parallel lines, the determinant formula gives a point on both lines |
| Geometry.Intersection | script.js:200-211 | no point exactly when the determinant is zero (parallel lines); otherwise a point on both lines |
| Geometry.IntersectionUnique | script.js:200-211 | any point on both non-parallel lines is the one returned, so the crossing is unique |
| Geometry.SharedVertexIntersection | script.js:200-211 | two lines from a common vertex p have no intersection exactly when the three points are collinear, and otherwise meet at p |
| Shoelace.PolygonArea | script.js:180-190 | the loop's result is the absolute half shoelace sum over the vertices with wrap-around, and is never negative |
| Shoelace.ShoelaceIsClosedChain | script.js:184-188 | the loop's sum equals the reference sum along the closed path that returns to the first vertex |
| Shoelace.ShoelaceRotateBy | script.js:184-188 | starting the vertex list at any vertex leaves the sum unchanged |
| Shoelace.ShoelaceReverse | script.js:184-188 | listing the vertices in reverse order negates the sum |
| Shoelace.AreaInvariant | script.js:189 | the displayed area is the same for every starting vertex and for both orientations |
| Shoelace.SquareArea | script.js:180-190 | a square of side s has shoelace sum 2s², and side 10 gives area 100 |
| PolygonDiagonals.EnumerateDiagonals | script.js:122-132 | the nested loops emit exactly the diagonals of an n-gon, in strictly increasing lexicographic order, with n(n-3)/2 of them for n ≥ 3 |
| PolygonDiagonals.KeepIsDiagonal | script.js:125-126 | for the pairs the inner loop visits, the loop's filter accepts exactly the pairs that are diagonals |
| PolygonDiagonals.IsDiagonalIsNonAdjacent | script.js:124-126 | for two distinct vertices i < j, the pair is a diagonal exactly when the vertices are not neighbours around the polygon, counting the last and the first vertex as neighbours |
| PolygonDiagonals.DiagonalsMembers | script.js:124-132 | a pair is emitted if and only if it joins two vertices that are not neighbours around the polygon |
| PolygonDiagonals.DiagonalsIncreasing | script.js:124-132 | the emitted pairs come in strictly increasing lexicographic order, so there are no repeats |
| PolygonDiagonals.DiagonalsCount | script.js:124-132 | twice the number of emitted pairs is n(n-3) |
| PolygonDiagonals.FirstTwoDiagonals | script.js:124-135 | for n ≥ 4 the first two diagonals are (0,2) and (1,3) when n = 4, and (0,2) and (0,3) when n ≥ 5 |
| Engine.FirstIntersection | script.js:135 | for a quadrilateral, A is the crossing of its two diagonals; from five vertices on, A is missing exactly when vertices 0, 2, 3 are collinear, and is otherwise vertex 0 |
| Engine.MidpointLoop | script.js:144-148 | the loop yields the list of midpoints between each vertex and A, in vertex order (`MidpointsTo`) |
| Engine.DrawDiagonals | script.js:119-150 | below four vertices nothing is produced; otherwise it produces all diagonals and the intersection of the first two, plus the midpoints to A when A exists (the corrected behaviour) |
| Engine.PolygonEngine.constructor | script.js:5 | a session starts with an empty vertex list |
| Engine.PolygonEngine.AddPoint | script.js:57-75 | the click appends the point; an edge is annotated iff a previous point existed, running from it to the new point, with its squared length and its midpoint as label anchor |
| Engine.FinishOutcomeAsWritten | script.js:95-116 | the handler as written: nothing below three vertices, the centroid for three; from four vertices on, `Aborted` with only the closing edge and the diagonals (no area) exactly when A is missing, and otherwise the area and the midpoints to A |
| Engine.FinishOutcome | script.js:95-116 | the corrected handler: never aborts; nothing below three vertices, the centroid for three, and for every n > 3 a `Polygon` with the closing edge, the diagonals, A, the area, and midpoints exactly when A exists |
| Engine.PolygonEngine.Finish | script.js:95-116 | (the corrected behaviour) equals `FinishOutcome` of the vertex list: nothing below three vertices; the centroid for exactly three; from four vertices on: the closing edge from the last vertex to the first with its squared length and label anchor, the diagonals, A, the midpoints when A exists, and the area |
| Engine.AsWrittenAbortsOnParallelDiagonals | script.js:135-148 | the finish step as written aborts exactly when there are at least four vertices and A is missing; otherwise it agrees with the corrected step, which never aborts |
| Engine.CollinearPentagonAborts | script.js:113-114 | for the pentagon (0,0),(c,0),(c,c),(2c,2c),(0,2c), the step as written aborts; the corrected step reports no A, no midpoints, and the area (250 for c = 10) |
| Engine.CollinearPentagonSum | script.js:184-188 | the pentagon above has shoelace sum 5c² |
| Engine.SquareDiagonalsMeet | script.js:135 | for the square (0,0), (s,0), (s,s), (0,s) with s ≠ 0, A is the centre (s/2, s/2); for side 10 it is (5,5) |
| Engine.FinishAlwaysReportsArea | script.js:101-114 | with more than three vertices, the corrected finish step always reports the shoelace area, and reports midpoints exactly when A exists |

## Left out

- Geometry.SqDistProperties: does not prove that two distinct points have a positive squared distance. The model states only symmetry, non-negativity and zero for equal points.
- Lengths and areas are shown after `Math.sqrt` and `toFixed(2)`. The model keeps the squared length and the unrounded area, because square roots and decimal rounding are not modelled.
- Floating-point behaviour is not modelled. Coordinates are exact reals, so the source's `denom === 0` test is exact here.
- Drawing and labelling are rendering, not geometry: `drawPoint`, `drawLine`, `labelPoint`, the text of `labelEdge` and `displayArea`, fonts, colours and the ±5 / ±10 pixel label offsets. The model keeps only where each label is anchored: the edge midpoint, and midpoint i labelled P(i+1).
- Camera enumeration, switching and streaming are browser I/O (script.js:11-54, 226-229).
- The translation from the click's client position to canvas coordinates is left out. The model receives the canvas point directly.
- Diagonals are stored as vertex index pairs, where the source pushes pairs of points. The point pair is `(pts[i], pts[j])` for the index pair `(i, j)`.
- Engine.PolygonEngine.Finish: models the corrected step; when the first two diagonals are parallel the source aborts before the area, which Engine.FinishOutcomeAsWritten models.
- Engine.DrawDiagonals: models the corrected behaviour, where the midpoints are skipped when A is missing. The source's abort is modelled separately, by `Engine.FinishOutcomeAsWritten`.

## Findings

| source | as written | input that shows it | evidently intended | confidence | as-written member | corrected member |
|---|---|---|---|---|---|---|
| script.js:144-148 | the midpoint loop calls `calculateMidpoint(points[i], A)` even when `calculateIntersection` returned `null`. Reading `A[0]` throws, so the finish handler stops before `calculatePolygonArea` and `displayArea` (script.js:113-114) | the pentagon (0,0), (10,0), (10,10), (20,20), (0,20): diagonals (0,2) and (0,3) both lie on y = x, so A is null. Also the quadrilateral (0,0), (0,1), (1,0), (1,1), whose first two diagonals are parallel | skip the midpoints when A is missing, as the drawing of A at script.js:138 already does, and still show the area | high (not executed) | Engine.FinishOutcomeAsWritten | Engine.FinishOutcome |
