/**
 * The fill tessellator: the path callbacks that turn each contour into a
 * triangle fan around its first point, the curve callback that classifies
 * a cubic and buffers it (split at its inflections) for the GPU curve pass,
 * and the fill pass that drives them.
 *
 * `Tessellation` is the specification: the fan state, the vertex data
 * drawn so far, the box and the buffered splines; `FanLine`, `FanMove`,
 * `FanCurve` and `FanPath` say what each callback and a whole path do to
 * it. The class `FillPathMesh` is the imperative tessellator, and each of
 * its methods is proved to do to the mesh what the specification says.
 */
module Fill {
  import opened Config
  import opened GralTypes
  import opened GralMath
  import opened Cubics
  import opened Gpu
  import opened SplinesBuffers
  import opened Meshes
  import opened SplineMeshes
  import opened SplineFill
  import opened Stencils

  /** One callback of the path interpretation, with its points in cairo fixed point. */
  datatype PathOp = MoveTo(p: Point) | LineTo(p: Point) | CurveTo(p1: Point, p2: Point, p3: Point) | ClosePath

  /** The current point, whether a contour is being drawn, and the fan centre of that contour. */
  datatype FanState = FanState(cur: Vector2, drawing: bool, centre: Vector2)

  /** Everything the fill has produced: the drawn vertex data, the box, the buffered splines. */
  datatype Tessellation = Tessellation(state: FanState, drawn: seq<VertexData>, box: BoundBox, splines: seq<Spline>)

  function Pos(p: Vector2): VertexData
  {
    PosData(p.x, p.y)
  }

  /**
   * A line to p: nothing if p is the current point; the first line of a
   * contour makes the current point the fan centre; every later line adds
   * the triangle (centre, current point, p).
   */
  function FanLine(t: Tessellation, p: Vector2): Tessellation
  {
    var st := t.state;
    if st.cur == p then t
    else if st.drawing then
      Tessellation(FanState(p, true, st.centre), t.drawn + [Pos(st.centre), Pos(st.cur), Pos(p)],
                   GrowBox(t.box, p.x, p.y), t.splines)
    else
      Tessellation(FanState(p, true, st.cur), t.drawn,
                   GrowBox(GrowBox(t.box, st.cur.x, st.cur.y), p.x, p.y), t.splines)
  }

  /** A move ends the contour. */
  function FanMove(t: Tessellation, p: Vector2): Tessellation
  {
    t.(state := FanState(p, false, t.state.centre))
  }

  /** Buffering a spline, then a line to its last knot. */
  function FanSpline(t: Tessellation, s: Spline): Tessellation
  {
    FanLine(t.(splines := t.splines + [s]), s.k3)
  }

  function FanSplines(t: Tessellation, pieces: seq<Spline>): Tessellation
  {
    if pieces == [] then t else FanSpline(FanSplines(t, pieces[..|pieces| - 1]), pieces[|pieces| - 1])
  }

  /** A cubic: a line when it is one, otherwise its pieces, each buffered and followed by a line. */
  function FanCurve(t: Tessellation, s: Spline, sqrt: real -> real): Tessellation
  {
    var pieces := CurvePieces(s, sqrt);
    if pieces == [] then FanLine(t, s.k3) else FanSplines(t, pieces)
  }

  /** The cubic a curve callback describes: it starts at the current point. */
  function CurveOf(cur: Vector2, p1: Point, p2: Point, p3: Point): Spline
  {
    Spline(cur, PointToVector(p1), PointToVector(p2), PointToVector(p3))
  }

  function FanOp(t: Tessellation, op: PathOp, sqrt: real -> real): Tessellation
  {
    match op
    case MoveTo(p) => FanMove(t, PointToVector(p))
    case LineTo(p) => FanLine(t, PointToVector(p))
    case CurveTo(p1, p2, p3) => FanCurve(t, CurveOf(t.state.cur, p1, p2, p3), sqrt)
    case ClosePath => t
  }

  /** The whole interpretation of a path. */
  function FanPath(t: Tessellation, ops: seq<PathOp>, sqrt: real -> real): Tessellation
  {
    if ops == [] then t else FanOp(FanPath(t, ops[..|ops| - 1], sqrt), ops[|ops| - 1], sqrt)
  }

  /** The interpretation of a prefix one element longer takes one more step. */
  lemma FanPathStep(t: Tessellation, ops: seq<PathOp>, i: nat, sqrt: real -> real)
    requires i < |ops|
    ensures FanPath(t, ops[..i + 1], sqrt) == FanOp(FanPath(t, ops[..i], sqrt), ops[i], sqrt)
  {
    assert ops[..i + 1][..i] == ops[..i];
  }

  /** Paths the flattening interpretation produces: no curves. */
  predicate Flat(ops: seq<PathOp>)
  {
    forall i :: 0 <= i < |ops| ==> !ops[i].CurveTo?
  }

  // ---------------------------------------------------------------------
  // Properties of the specification
  // ---------------------------------------------------------------------

  /** The fan around c through pts: the triangles (c, pts[i], pts[i + 1]), in order. */
  function FanTriangles(c: Vector2, pts: seq<Vector2>): (r: seq<VertexData>)
    ensures |r| == (if |pts| == 0 then 0 else 3 * (|pts| - 1))
  {
    if |pts| <= 1 then []
    else FanTriangles(c, pts[..|pts| - 1]) + [Pos(c), Pos(pts[|pts| - 2]), Pos(pts[|pts| - 1])]
  }

  /** Consecutive points of a contour differ (a repeated point is skipped by the line callback). */
  predicate Distinct(p0: Vector2, pts: seq<Vector2>)
  {
    && (|pts| > 0 ==> pts[0] != p0)
    && (forall i :: 0 < i < |pts| ==> pts[i] != pts[i - 1])
  }

  /** Lines through pts, one after the other. */
  function FanLines(t: Tessellation, pts: seq<Vector2>): Tessellation
  {
    if pts == [] then t else FanLine(FanLines(t, pts[..|pts| - 1]), pts[|pts| - 1])
  }

  /**
   * A contour started at p0 and drawn through distinct consecutive points
   * p1 .. pk draws the fan (p0, p1, p2), (p0, p2, p3), ..., (p0, pk-1, pk):
   * k - 1 triangles around its first point. The box grows by p0 and each pi.
   */
  lemma {:induction false} ContourIsFan(t: Tessellation, p0: Vector2, pts: seq<Vector2>)
    requires !t.state.drawing && t.state.cur == p0 && Distinct(p0, pts) && pts != []
    ensures var r := FanLines(t, pts);
            && r.drawn == t.drawn + FanTriangles(p0, pts)
            && r.state == FanState(pts[|pts| - 1], true, p0)
            && r.box == BoxOf(t.box, [p0] + pts)
            && r.splines == t.splines
    decreases |pts|
  {
    var q := [p0] + pts;
    if |pts| == 1 {
      assert pts[..0] == [];
      assert q[..1] == [p0] && [p0][..0] == [];
      assert BoxOf(t.box, [p0]) == GrowBox(t.box, p0.x, p0.y);
      assert BoxOf(t.box, q) == GrowBox(BoxOf(t.box, q[..1]), pts[0].x, pts[0].y);
    } else {
      var front := pts[..|pts| - 1];
      assert Distinct(p0, front);
      ContourIsFan(t, p0, front);
      assert q[..|pts|] == [p0] + front;
      assert front[..|front| - 1] == pts[..|pts| - 2];
      var u := FanLines(t, front);
      assert u.state.cur == pts[|pts| - 2];
      assert FanLines(t, pts) == FanLine(u, pts[|pts| - 1]);
      assert t.drawn + FanTriangles(p0, front) + [Pos(p0), Pos(pts[|pts| - 2]), Pos(pts[|pts| - 1])]
          == t.drawn + FanTriangles(p0, pts);
    }
  }

  /** Only curves buffer splines, and a flat path leaves the buffer as it was. */
  lemma {:induction false} FlatPathBuffersNothing(t: Tessellation, ops: seq<PathOp>, sqrt: real -> real)
    requires Flat(ops)
    ensures FanPath(t, ops, sqrt).splines == t.splines
  {
    if ops != [] {
      FlatPathBuffersNothing(t, ops[..|ops| - 1], sqrt);
    }
  }

  /** The fan state's points lie in the box. */
  ghost predicate InBox(t: Tessellation)
  {
    t.state.drawing ==>
      t.box.Contains(t.state.cur.x, t.state.cur.y) && t.box.Contains(t.state.centre.x, t.state.centre.y)
  }

  /** The drawn data from index `from` on lies in the box. */
  ghost predicate DrawnInBox(t: Tessellation, from: nat)
  {
    forall k :: from <= k < |t.drawn| ==> t.box.Contains(t.drawn[k].pos.x, t.drawn[k].pos.y)
  }

  lemma FanLineCovers(t: Tessellation, p: Vector2, from: nat)
    requires InBox(t) && DrawnInBox(t, from)
    ensures InBox(FanLine(t, p)) && DrawnInBox(FanLine(t, p), from)
    ensures |FanLine(t, p).drawn| >= |t.drawn|
  {
    GrowBoxKeeps(t.box, p.x, p.y);
    GrowBoxKeeps(GrowBox(t.box, t.state.cur.x, t.state.cur.y), p.x, p.y);
    GrowBoxKeeps(t.box, t.state.cur.x, t.state.cur.y);
  }

  lemma {:induction false} FanSplinesCover(t: Tessellation, pieces: seq<Spline>, from: nat)
    requires InBox(t) && DrawnInBox(t, from)
    ensures InBox(FanSplines(t, pieces)) && DrawnInBox(FanSplines(t, pieces), from)
    ensures |FanSplines(t, pieces).drawn| >= |t.drawn|
  {
    if pieces != [] {
      FanSplinesCover(t, pieces[..|pieces| - 1], from);
      var u := FanSplines(t, pieces[..|pieces| - 1]);
      FanLineCovers(u.(splines := u.splines + [pieces[|pieces| - 1]]), pieces[|pieces| - 1].k3, from);
    }
  }

  /**
   * Every vertex the fill of a path draws lies in the box it ends with, so
   * the quad the box describes covers the whole fill.
   */
  lemma {:induction false} FanPathCovers(t: Tessellation, ops: seq<PathOp>, sqrt: real -> real)
    requires InBox(t)
    ensures InBox(FanPath(t, ops, sqrt)) && DrawnInBox(FanPath(t, ops, sqrt), |t.drawn|)
    ensures |FanPath(t, ops, sqrt).drawn| >= |t.drawn|
  {
    if ops != [] {
      FanPathCovers(t, ops[..|ops| - 1], sqrt);
      FanOpCovers(FanPath(t, ops[..|ops| - 1], sqrt), ops[|ops| - 1], sqrt, |t.drawn|);
    }
  }

  lemma FanOpCovers(t: Tessellation, op: PathOp, sqrt: real -> real, from: nat)
    requires InBox(t) && DrawnInBox(t, from)
    ensures InBox(FanOp(t, op, sqrt)) && DrawnInBox(FanOp(t, op, sqrt), from)
    ensures |FanOp(t, op, sqrt).drawn| >= |t.drawn|
  {
    match op
    case LineTo(p) => FanLineCovers(t, PointToVector(p), from);
    case CurveTo(p1, p2, p3) =>
      var s := CurveOf(t.state.cur, p1, p2, p3);
      if CurvePieces(s, sqrt) == [] {
        FanLineCovers(t, s.k3, from);
      } else {
        FanSplinesCover(t, CurvePieces(s, sqrt), from);
      }
    case _ =>
  }

  /** Whole triangles only: every callback adds a multiple of three vertices to the drawn data. */
  lemma {:induction false} FanPathDrawsTriangles(t: Tessellation, ops: seq<PathOp>, sqrt: real -> real)
    requires |t.drawn| % 3 == 0
    ensures |FanPath(t, ops, sqrt).drawn| % 3 == 0
  {
    if ops != [] {
      FanPathDrawsTriangles(t, ops[..|ops| - 1], sqrt);
      FanOpDrawsTriangles(FanPath(t, ops[..|ops| - 1], sqrt), ops[|ops| - 1], sqrt);
    }
  }

  lemma FanOpDrawsTriangles(t: Tessellation, op: PathOp, sqrt: real -> real)
    requires |t.drawn| % 3 == 0
    ensures |FanOp(t, op, sqrt).drawn| % 3 == 0
  {
    match op
    case MoveTo(p) =>
    case ClosePath =>
    case LineTo(p) =>
      FanLineDrawsOneTriangle(t, PointToVector(p));
      IndexResidues(|t.drawn|);
    case CurveTo(p1, p2, p3) =>
      var s := CurveOf(t.state.cur, p1, p2, p3);
      if CurvePieces(s, sqrt) == [] {
        FanLineDrawsOneTriangle(t, s.k3);
        IndexResidues(|t.drawn|);
      } else {
        FanSplinesDrawTriangles(t, CurvePieces(s, sqrt));
      }
  }

  /** A line adds no triangle or exactly one. */
  lemma FanLineDrawsOneTriangle(t: Tessellation, p: Vector2)
    ensures |FanLine(t, p).drawn| == |t.drawn| || |FanLine(t, p).drawn| == |t.drawn| + 3
  {
  }

  lemma {:induction false} FanSplinesDrawTriangles(t: Tessellation, pieces: seq<Spline>)
    requires |t.drawn| % 3 == 0
    ensures |FanSplines(t, pieces).drawn| % 3 == 0
  {
    if pieces != [] {
      var before := FanSplines(t, pieces[..|pieces| - 1]);
      FanSplinesDrawTriangles(t, pieces[..|pieces| - 1]);
      var s := pieces[|pieces| - 1];
      FanLineDrawsOneTriangle(before.(splines := before.splines + [s]), s.k3);
      IndexResidues(|before.drawn|);
    }
  }

  // ---------------------------------------------------------------------
  // The tessellator
  // ---------------------------------------------------------------------

  class FillPathMesh {
    const base: Mesh
    var curPoint: Vector2
    var drawingLine: bool
    var curCentricVertex: VertexIndex
    var prevVertex: VertexIndex
    /** The position stored in the fan centre's slot. */
    ghost var centre: Vector2

    /**
     * While a contour is drawn, the centre and previous slots hold the
     * centre and the current point, the previous slot follows the centre,
     * and a contour of one segment owns the last two vertices and nothing
     * recorded refers to them. Vertices stay within the indices (plus the
     * two of a pending first segment), which keeps room for every callback.
     */
    ghost predicate Valid()
      reads this, base, base.vertices, base.indices, base.texCoords
    {
      && base.Valid() && base.texCoords == null
      && base.numIndices % 3 == 0
      && (drawingLine ==>
            && curCentricVertex < prevVertex < base.issued
            && base.DataAt(curCentricVertex) == Pos(centre)
            && base.DataAt(prevVertex) == Pos(curPoint)
            && base.box.Contains(centre.x, centre.y) && base.box.Contains(curPoint.x, curPoint.y))
      && (drawingLine && prevVertex == curCentricVertex + 1 ==>
            && prevVertex + 1 == base.numVertices && base.numVertices <= base.numIndices + 2
            && forall j :: 0 <= j < base.numIndices ==> base.indices[j] < curCentricVertex)
      && (!drawingLine || prevVertex != curCentricVertex + 1 ==> base.numVertices <= base.numIndices)
    }

    ghost function State(): FanState
      reads this
    {
      FanState(curPoint, drawingLine, centre)
    }

    /** The tessellator's progress, in the terms of the specification. */
    ghost function Now(): Tessellation
      reads this, base, base.device, base.vertices, base.indices, base.texCoords, base.splines
      requires base.numIndices <= base.indices.Length
    {
      Tessellation(State(), base.Stream(), base.box, base.splines.Contents)
    }

    /** The fill mesh: no texture coordinates, no contour yet; the current point is not set. */
    constructor (device: Device, vertices: array<VertexPos>, indices: array<VertexIndex>, start: Vector2)
      requires vertices.Length == MaxVertices && indices.Length == MaxIndices
      ensures Valid() && base.splines.Valid() && fresh(base) && fresh(base.splines)
      ensures base.device == device && base.vertices == vertices && base.indices == indices
      ensures base.numVertices == 0 && base.numIndices == 0
      ensures Now() == Tessellation(FanState(start, false, start), StreamOf(device.submissions), InitialBox, [])
    {
      base := new Mesh.Init(device, vertices, null, indices);
      curPoint := start;
      drawingLine := false;
      centre := start;
      curCentricVertex := 0;
      prevVertex := 0;
    }

    /**
     * Ends the contour. A contour of a single segment cannot be filled: its
     * two vertices, the last two of the mesh, are given back.
     */
    method MoveTo(point: Point) returns (status: Status)
      requires Valid()
      modifies this, base`numVertices
      ensures Valid() && status == Success
      ensures Now() == FanMove(old(Now()), PointToVector(point))
      ensures base.numVertices
           == old(if drawingLine && prevVertex == curCentricVertex + 1 then base.numVertices - 2 else base.numVertices)
    {
      if drawingLine && prevVertex == curCentricVertex + 1 {
        assert base.numVertices - 1 == prevVertex;
        base.numVertices := base.numVertices - 2;
      }
      drawingLine := false;
      curPoint := PointToVector(point);
      status := Success;
    }

    method LineTo(point: Point) returns (status: Status)
      requires Valid()
      modifies this, base`numVertices, base`numIndices, base`box, base`issued
      modifies base.vertices, base.indices, base.device
      ensures Valid() && status == Success
      ensures Now() == FanLine(old(Now()), PointToVector(point))
    {
      status := LineToVector(PointToVector(point));
    }

    method LineToVector(point: Vector2) returns (status: Status)
      requires Valid()
      modifies this, base`numVertices, base`numIndices, base`box, base`issued
      modifies base.vertices, base.indices, base.device
      ensures Valid() && status == Success
      ensures Now() == FanLine(old(Now()), point)
    {
      status := Success;
      if curPoint == point {
        return;
      }
      if drawingLine {
        AddFanTriangle(point);
      } else {
        StartContour(point);
      }
    }

    /** The first segment of a contour: its start becomes the fan centre. */
    method StartContour(point: Vector2)
      requires Valid() && !drawingLine && curPoint != point
      modifies this, base`numVertices, base`box, base`issued, base.vertices
      ensures Valid()
      ensures Now() == FanLine(old(Now()), point)
    {
      FlushFallsOnTriangleBoundary(base.numIndices);
      curCentricVertex, prevVertex := base.AddVertexPair(curPoint.x, curPoint.y, point.x, point.y);
      drawingLine := true;
      centre := curPoint;
      curPoint := point;
    }

    /** A later segment: the triangle (centre, previous, new). */
    method AddFanTriangle(point: Vector2)
      requires Valid() && drawingLine && curPoint != point
      modifies this, base`numVertices, base`numIndices, base`box, base`issued
      modifies base.vertices, base.indices, base.device
      ensures Valid()
      ensures Now() == FanLine(old(Now()), point)
    {
      FlushFallsOnTriangleBoundary(base.numIndices);
      ghost var stream, cur := base.Stream(), curPoint;
      RecordCentre();
      RecordPrev();
      CloseFan(point);
      AppendThree(stream, Pos(centre), Pos(cur), Pos(point));
    }

    /** The fan's centre has been recorded as the first index of a triangle. */
    ghost predicate CentreRecorded()
      reads this, base, base.vertices, base.indices, base.texCoords
    {
      && base.Valid() && base.texCoords == null && drawingLine
      && base.numIndices % 3 == 1 && base.numIndices + 1 < MaxIndices
      && curCentricVertex < base.numVertices && curCentricVertex < prevVertex < base.issued
      && base.DataAt(curCentricVertex) == Pos(centre) && base.DataAt(prevVertex) == Pos(curPoint)
      && base.box.Contains(centre.x, centre.y) && base.box.Contains(curPoint.x, curPoint.y)
      && base.numVertices <= base.numIndices + (if prevVertex < base.numVertices then 1 else 0)
    }

    /** The centre and the previous point have been recorded: the triangle lacks its last index. */
    ghost predicate PairRecorded()
      reads this, base, base.vertices, base.indices, base.texCoords
    {
      && base.Valid() && base.texCoords == null && drawingLine
      && base.numIndices % 3 == 2
      && curCentricVertex < prevVertex < base.numVertices
      && base.DataAt(curCentricVertex) == Pos(centre) && base.DataAt(prevVertex) == Pos(curPoint)
      && base.box.Contains(centre.x, centre.y) && base.box.Contains(curPoint.x, curPoint.y)
      && base.numVertices <= base.numIndices
    }

    /** The first index of the triangle: the centre slot, re-materialised if a flush submitted it. */
    method RecordCentre()
      requires Valid() && drawingLine && base.numIndices + 2 < MaxIndices
      modifies this`curCentricVertex, base`numVertices, base`numIndices, base`box, base`issued
      modifies base.vertices, base.indices, base.device
      ensures CentreRecorded()
      ensures base.Stream() == old(base.Stream()) + [Pos(centre)] && base.box == old(base.box)
    {
      assert base.vertices[curCentricVertex].x == centre.x && base.vertices[curCentricVertex].y == centre.y;
      GrowBoxSame(base.box, centre.x, centre.y);
      ghost var count := base.numIndices;
      curCentricVertex := base.AddIndex(curCentricVertex);
      NextResidue(count, base.numIndices, 0);
    }

    /** The second index: the previous slot, re-materialised if a flush submitted it. */
    method RecordPrev()
      requires CentreRecorded()
      modifies this`prevVertex, base`numVertices, base`numIndices, base`box, base`issued
      modifies base.vertices, base.indices, base.device
      ensures PairRecorded()
      ensures base.Stream() == old(base.Stream()) + [Pos(curPoint)] && base.box == old(base.box)
    {
      assert base.vertices[prevVertex].x == curPoint.x && base.vertices[prevVertex].y == curPoint.y;
      GrowBoxSame(base.box, curPoint.x, curPoint.y);
      ghost var count := base.numIndices;
      prevVertex := base.AddIndex(prevVertex);
      NextResidue(count, base.numIndices, 1);
    }

    /** The last index: a new vertex at the point, which becomes the previous slot. */
    method CloseFan(point: Vector2)
      requires PairRecorded()
      modifies this`prevVertex, this`curPoint, base`numVertices, base`numIndices, base`box, base`issued
      modifies base.vertices, base.indices, base.device
      ensures Valid() && curPoint == point
      ensures base.Stream() == old(base.Stream()) + [Pos(point)]
      ensures base.box == GrowBox(old(base.box), point.x, point.y)
    {
      var next := AddNext(point);
      ghost var count := base.numIndices;
      var _ := base.AddIndex(next);
      NextResidue(count, base.numIndices, 2);
      prevVertex := next;
      curPoint := point;
      assert prevVertex != curCentricVertex + 1;
    }

    /** The new vertex of the triangle, stored after the previous slot. */
    method AddNext(point: Vector2) returns (next: VertexIndex)
      requires PairRecorded()
      modifies base`numVertices, base`box, base`issued, base.vertices
      ensures base.Valid() && base.numIndices % 3 == 2
      ensures curCentricVertex + 1 < next < base.numVertices <= base.numIndices + 1
      ensures base.DataAt(curCentricVertex) == Pos(centre) && base.DataAt(next) == Pos(point)
      ensures base.box.Contains(centre.x, centre.y) && base.box.Contains(point.x, point.y)
      ensures base.box == GrowBox(old(base.box), point.x, point.y)
      ensures base.Stream() == old(base.Stream())
    {
      GrowBoxKeeps(base.box, point.x, point.y);
      next := base.AddVertexFloat(point.x, point.y);
    }

    /**
     * Buffers a spline and draws a line to its last knot; when the buffer
     * cannot grow the status is returned and nothing is drawn.
     */
    method AddSpline(spline: Spline, allocOk: bool) returns (status: Status)
      requires Valid() && base.splines.Valid()
      modifies this, base`numVertices, base`numIndices, base`box, base`issued
      modifies base.vertices, base.indices, base.device, base.splines
      ensures Valid() && base.splines.Valid()
      ensures status == Success || status == NoMemory
      ensures allocOk ==> status == Success
      ensures status == Success ==> Now() == FanSpline(old(Now()), spline)
    {
      status := base.splines.Add(spline, allocOk);
      if status != Success {
        return;
      }
      status := LineToVector(spline.k3);
    }

    /**
     * Classifies the cubic from the current point through p1, p2 to p3 by
     * its discriminants: a line is drawn as one; a quadratic is buffered
     * whole; otherwise the inflection parameters are computed, sorted, and
     * the cubic buffered as the pieces between those inside (0, 1).
     */
    method CurveTo(p1: Point, p2: Point, p3: Point, sqrt: real -> real, allocOk: bool) returns (status: Status)
      requires Valid() && base.splines.Valid()
      modifies this, base`numVertices, base`numIndices, base`box, base`issued
      modifies base.vertices, base.indices, base.device, base.splines
      ensures Valid() && base.splines.Valid()
      ensures status == Success || status == NoMemory
      ensures allocOk ==> status == Success
      ensures status == Success ==> Now() == FanCurve(old(Now()), CurveOf(old(curPoint), p1, p2, p3), sqrt)
    {
      var spline := CurveOf(curPoint, p1, p2, p3);
      ghost var t := Now();
      FanCurveCases(t, spline, sqrt);
      var d := CubicDiscriminants(spline);
      if d.d1 == 0.0 && d.d2 == 0.0 && d.d3 == 0.0 {
        // a line
        status := LineToVector(spline.k3);
        return;
      }
      if d.d1 == 0.0 && d.d2 == 0.0 {
        // a quadratic
        status := AddSpline(spline, allocOk);
        return;
      }
      status := AddAtInflections(spline, d, sqrt, allocOk);
    }

    /**
     * A cubic with an inflection parameter: the cusp at infinity has one,
     * the other kinds two, from the inflection discriminant (a third of it
     * for a serpentine, its negation for a loop); sorted, they split the cubic.
     */
    method AddAtInflections(spline: Spline, d: Discriminants, sqrt: real -> real, allocOk: bool) returns (status: Status)
      requires Valid() && base.splines.Valid() && (d.d1 != 0.0 || d.d2 != 0.0)
      modifies this, base`numVertices, base`numIndices, base`box, base`issued
      modifies base.vertices, base.indices, base.device, base.splines
      ensures Valid() && base.splines.Valid()
      ensures status == Success || status == NoMemory
      ensures allocOk ==> status == Success
      ensures var (i1, i2) := SortPair(Inflections(d, sqrt));
              status == Success ==> Now() == FanSplines(old(Now()), SplitAtInflections(spline, i1, i2))
    {
      var inflection1, inflection2;
      if d.d1 == 0.0 {
        // cusp at infinity
        var ls, lt := d.d3, 3.0 * d.d2;
        inflection1, inflection2 := ls / lt, ls / lt;
      } else {
        var disI := 3.0 * d.d2 * d.d2 - 4.0 * d.d1 * d.d3;
        assert disI == InflectionDiscriminant(d);
        if disI >= 0.0 {
          // serpentine or cusp
          disI := disI / 3.0;
        } else {
          // loop
          disI := -disI;
        }
        var ls, lt := d.d2 - sqrt(disI), 2.0 * d.d1;
        var ms, mt := d.d2 + sqrt(disI), 2.0 * d.d1;
        inflection1, inflection2 := ls / lt, ms / mt;
      }
      assert (inflection1, inflection2) == Inflections(d, sqrt);
      if inflection1 > inflection2 {
        inflection1, inflection2 := inflection2, inflection1;
      }
      status := AddPieces(spline, inflection1, inflection2, allocOk);
    }

    /** The splits of the curve callback, each piece buffered in order, stopping at a failure. */
    method AddPieces(spline: Spline, inflection1: real, inflection2: real, allocOk: bool) returns (status: Status)
      requires Valid() && base.splines.Valid() && inflection1 <= inflection2
      modifies this, base`numVertices, base`numIndices, base`box, base`issued
      modifies base.vertices, base.indices, base.device, base.splines
      ensures Valid() && base.splines.Valid()
      ensures status == Success || status == NoMemory
      ensures allocOk ==> status == Success
      ensures status == Success ==> Now() == FanSplines(old(Now()), SplitAtInflections(spline, inflection1, inflection2))
    {
      ghost var t := Now();
      ghost var pieces := SplitAtInflections(spline, inflection1, inflection2);
      if inflection1 >= 1.0 || inflection2 <= 0.0 || (inflection1 <= 0.0 && inflection2 >= 1.0) {
        assert pieces == [spline];
        status := AddSpline(spline, allocOk);
        return;
      }
      if inflection1 <= 0.0 {
        var (left, right) := Subdivide(inflection2, spline);
        assert pieces == [left, right];
        status := AddTwo(left, right, allocOk);
        return;
      }
      var (left, right) := Subdivide(inflection1, spline);
      if inflection2 == inflection1 || inflection2 >= 1.0 {
        assert pieces == [left, right];
        status := AddTwo(left, right, allocOk);
        return;
      }
      var (left2, right2) := Subdivide((inflection2 - inflection1) / (1.0 - inflection1), right);
      assert pieces == [left, left2, right2];
      status := AddSpline(left, allocOk);
      if status != Success {
        return;
      }
      status := AddTwo(left2, right2, allocOk);
      FanSplinesTriple(t, left, left2, right2);
    }

    method AddTwo(first: Spline, second: Spline, allocOk: bool) returns (status: Status)
      requires Valid() && base.splines.Valid()
      modifies this, base`numVertices, base`numIndices, base`box, base`issued
      modifies base.vertices, base.indices, base.device, base.splines
      ensures Valid() && base.splines.Valid()
      ensures status == Success || status == NoMemory
      ensures allocOk ==> status == Success
      ensures status == Success ==> Now() == FanSplines(old(Now()), [first, second])
    {
      status := AddSpline(first, allocOk);
      if status != Success {
        return;
      }
      status := AddSpline(second, allocOk);
      FanSplinesPair(old(Now()), first, second);
    }

    /** Closing a path draws nothing: the fan of the contour is already complete. */
    method ClosePath() returns (status: Status)
      requires Valid()
      ensures status == Success
    {
      status := Success;
    }

    /**
     * Runs the callbacks over the interpretation of a path, in order,
     * stopping at the first status that is not success.
     */
    method Interpret(ops: seq<PathOp>, sqrt: real -> real, allocOk: bool) returns (status: Status)
      requires Valid() && base.splines.Valid()
      modifies this, base`numVertices, base`numIndices, base`box, base`issued
      modifies base.vertices, base.indices, base.device, base.splines
      ensures Valid() && base.splines.Valid()
      ensures status == Success || status == NoMemory
      ensures allocOk || Flat(ops) ==> status == Success
      ensures status == Success ==> Now() == FanPath(old(Now()), ops, sqrt)
    {
      ghost var t := Now();
      var i := 0;
      status := Success;
      while i < |ops|
        invariant 0 <= i <= |ops| && Valid() && base.splines.Valid()
        invariant status == Success && Now() == FanPath(t, ops[..i], sqrt)
        decreases |ops| - i
      {
        FanPathStep(t, ops, i, sqrt);
        status := Callback(ops[i], sqrt, allocOk);
        if status != Success {
          assert !Flat(ops) by { assert ops[i].CurveTo?; }
          return;
        }
        i := i + 1;
      }
      assert ops[..i] == ops;
    }

    /** The callback the interpretation calls for one element of the path. */
    method Callback(op: PathOp, sqrt: real -> real, allocOk: bool) returns (status: Status)
      requires Valid() && base.splines.Valid()
      modifies this, base`numVertices, base`numIndices, base`box, base`issued
      modifies base.vertices, base.indices, base.device, base.splines
      ensures Valid() && base.splines.Valid()
      ensures status == Success || status == NoMemory
      ensures allocOk || !op.CurveTo? ==> status == Success
      ensures status == Success ==> Now() == FanOp(old(Now()), op, sqrt)
    {
      match op {
        case MoveTo(p) => status := MoveTo(p);
        case LineTo(p) => status := LineTo(p);
        case CurveTo(p1, p2, p3) => status := CurveTo(p1, p2, p3, sqrt, allocOk);
        case ClosePath => status := ClosePath();
      }
    }
  }

  /** The curve callback's case split, read off the specification. */
  lemma FanCurveCases(t: Tessellation, s: Spline, sqrt: real -> real)
    ensures var d := CubicDiscriminants(s);
            && (d.d1 == 0.0 && d.d2 == 0.0 && d.d3 == 0.0 ==> FanCurve(t, s, sqrt) == FanLine(t, s.k3))
            && (d.d1 == 0.0 && d.d2 == 0.0 && d.d3 != 0.0 ==> FanCurve(t, s, sqrt) == FanSpline(t, s))
            && (d.d1 != 0.0 || d.d2 != 0.0 ==>
                  var (i1, i2) := SortPair(Inflections(d, sqrt));
                  FanCurve(t, s, sqrt) == FanSplines(t, SplitAtInflections(s, i1, i2)))
  {
    var d := CubicDiscriminants(s);
    if d.d1 == 0.0 && d.d2 == 0.0 && d.d3 != 0.0 {
      assert CurvePieces(s, sqrt) == [s];
      assert [s][..0] == [];
      assert FanSplines(t, [s]) == FanSpline(FanSplines(t, []), s);
    }
  }

  lemma FanSplinesPair(t: Tessellation, a: Spline, b: Spline)
    ensures FanSplines(t, [a, b]) == FanSpline(FanSpline(t, a), b)
  {
    assert [a, b][..1] == [a] && [a][..0] == [];
    assert FanSplines(t, [a]) == FanSpline(FanSplines(t, []), a);
    assert FanSplines(t, [a, b]) == FanSpline(FanSplines(t, [a]), b);
  }

  lemma FanSplinesTriple(t: Tessellation, a: Spline, b: Spline, c: Spline)
    ensures FanSplines(t, [a, b, c]) == FanSplines(FanSpline(t, a), [b, c])
  {
    FanSplinesPair(t, a, b);
    FanSplinesPair(FanSpline(t, a), b, c);
    assert [a, b, c][..2] == [a, b];
    assert FanSplines(t, [a, b, c]) == FanSpline(FanSplines(t, [a, b]), c);
  }

  lemma {:induction false} FanSplinesAppend(t: Tessellation, a: seq<Spline>, b: seq<Spline>)
    ensures FanSplines(t, a + b) == FanSplines(FanSplines(t, a), b)
    decreases |b|
  {
    if b != [] {
      FanSplinesAppend(t, a, b[..|b| - 1]);
      assert (a + b)[..|a + b| - 1] == a + b[..|b| - 1];
    } else {
      assert a + b == a;
    }
  }

  /**
   * The fill pass for a given choice of interpretation: a mesh without
   * texture coordinates, the callbacks over the curved path (`useShader`)
   * or over its flattening, a flush, the GPU curve pass when splines were
   * buffered, and the box handed out on success. The mesh is finalised
   * either way. `start` stands for the current point the mesh leaves
   * unset, which a path that starts with a move never reads.
   */
  method RenderFillPathWith(device: Device, useShader: bool, path: seq<PathOp>, flattened: seq<PathOp>,
                            start: Vector2, sqrt: real -> real, allocOk: bool)
      returns (status: Status, box: Option<BoundBox>)
    requires Flat(flattened)
    modifies device
    ensures status == Success || status == NoMemory
    ensures allocOk || !useShader ==> status == Success
    ensures status == Success <==> box.Some?
    ensures var t := FanPath(Tessellation(FanState(start, false, start), old(StreamOf(device.submissions)),
                                          InitialBox, []),
                             if useShader then path else flattened, sqrt);
            status == Success ==>
              && StreamOf(device.submissions) == t.drawn + SplinesStream(t.splines, RowsOf(sqrt))
              && box == Some(SplinesBox(t.box, t.splines, RowsOf(sqrt)))
  {
    var ops := if useShader then path else flattened;
    var mesh;
    mesh, status := TessellatePath(device, ops, start, sqrt, allocOk);
    if status != Success {
      mesh.base.Fini();
      return status, None;
    }
    var b := FlushAndDrawCurves(mesh, sqrt);
    box := Some(b);
    mesh.base.Fini();
  }

  /** A fresh fill mesh over fresh arrays, and the callbacks run over the interpretation `ops`. */
  method TessellatePath(device: Device, ops: seq<PathOp>, start: Vector2, sqrt: real -> real, allocOk: bool)
      returns (mesh: FillPathMesh, status: Status)
    modifies device
    ensures fresh(mesh.base) && fresh(mesh.base.splines) && fresh(mesh.base.vertices) && fresh(mesh.base.indices)
    ensures mesh.Valid() && mesh.base.splines.Valid() && mesh.base.device == device
    ensures status == Success || status == NoMemory
    ensures allocOk || Flat(ops) ==> status == Success
    ensures status == Success ==>
              mesh.Now() == FanPath(Tessellation(FanState(start, false, start), old(StreamOf(device.submissions)),
                                                 InitialBox, []), ops, sqrt)
  {
    var vertices := new VertexPos[MaxVertices](_ => VertexPos(0.0, 0.0, 0.0));
    var indices := new VertexIndex[MaxIndices](_ => 0);
    mesh := new FillPathMesh(device, vertices, indices, start);
    status := mesh.Interpret(ops, sqrt, allocOk);
  }

  /** The flush of the fans, then the GPU curve pass over the buffered splines, if any. */
  method FlushAndDrawCurves(mesh: FillPathMesh, sqrt: real -> real) returns (box: BoundBox)
    requires mesh.Valid() && mesh.base.splines.Valid()
    modifies mesh.base`numVertices, mesh.base`numIndices, mesh.base`box
    modifies mesh.base.vertices, mesh.base.indices, mesh.base.device
    ensures StreamOf(mesh.base.device.submissions)
         == old(mesh.Now().drawn) + SplinesStream(old(mesh.Now().splines), RowsOf(sqrt))
    ensures box == SplinesBox(old(mesh.Now().box), old(mesh.Now().splines), RowsOf(sqrt))
  {
    var m := mesh.base;
    ghost var drawn, splines := m.Stream(), m.splines.Contents;
    ShapeAllowsFlush(mesh);
    m.Render();
    assert m.Pending() == [] by { assert m.indices[..m.numIndices] == []; }
    assert StreamOf(m.device.submissions) == drawn;
    if !m.splines.IsEmpty() {
      MeshGpuSplineFill(m, sqrt);
    } else {
      assert SplinesStream(splines, RowsOf(sqrt)) == [];
    }
    box := m.box;
  }

  /**
   * The fill pass as configured: the fragment-program capability would
   * select the curved interpretation, but GPU curve rendering is switched
   * off, so the flattened path is filled, no spline is buffered, and the
   * device receives exactly the fans of the flattened contours.
   */
  method RenderFillPath(device: Device, caps: Caps, path: seq<PathOp>, flattened: seq<PathOp>,
                        start: Vector2, sqrt: real -> real, allocOk: bool)
      returns (status: Status, box: Option<BoundBox>)
    requires Flat(flattened)
    modifies device
    ensures status == Success
    ensures var t := FanPath(Tessellation(FanState(start, false, start), old(StreamOf(device.submissions)),
                                          InitialBox, []),
                             flattened, sqrt);
            && StreamOf(device.submissions) == t.drawn
            && box == Some(t.box)
  {
    var useShader := HasCapability(caps, CapFragmentProgram);
    if DisableGpuSplineRendering {
      useShader := false;
    }
    ghost var t := Tessellation(FanState(start, false, start), StreamOf(device.submissions), InitialBox, []);
    FlatPathBuffersNothing(t, flattened, sqrt);
    status, box := RenderFillPathWith(device, useShader, path, flattened, start, sqrt, allocOk);
  }

  /** A valid fill mesh can always be flushed: its index count is a multiple of 3. */
  lemma ShapeAllowsFlush(mesh: FillPathMesh)
    requires mesh.Valid()
    ensures mesh.base.Wf() && (mesh.base.numIndices < 3 || mesh.base.numIndices % 3 == 0)
  {
  }

  /** The fill mask pass: the stencil setup for the fill rule, then the fill pass. */
  method PrepareFillStencilMask(device: Device, caps: Caps, rule: FillRule, path: seq<PathOp>,
                                flattened: seq<PathOp>, start: Vector2, sqrt: real -> real, allocOk: bool)
      returns (stencil: StencilParams, status: Status, box: Option<BoundBox>)
    requires Flat(flattened)
    modifies device
    ensures stencil == FillStencil(rule)
    ensures status == Success
    ensures var t := FanPath(Tessellation(FanState(start, false, start), old(StreamOf(device.submissions)),
                                          InitialBox, []),
                             flattened, sqrt);
            && StreamOf(device.submissions) == t.drawn
            && box == Some(t.box)
  {
    stencil := FillStencil(rule);
    status, box := RenderFillPath(device, caps, path, flattened, start, sqrt, allocOk);
  }
}
