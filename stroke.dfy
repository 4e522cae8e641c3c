/**
 * The stroke mesh emitters: the stroker (not part of this model) hands the
 * mesh triangles, convex quads, and the hull of each stroked spline as an
 * open / extend* / close protocol; the mesh turns each into indexed
 * triangles.
 *
 * `StrokeState` is the specification: the drawn vertex data, the box, the
 * open hull and the counts of the pending batch; `StrokeStep` and
 * `StrokeRun` say what each emitter and a
 * whole run do to it. The class `StrokePathMesh` is the imperative
 * emitter, proved to do to the mesh what the specification says.
 */
module Stroke {
  import opened Config
  import opened GralTypes
  import opened Gpu
  import opened Meshes
  import opened Stencils

  function PointData(p: Point): VertexData
  {
    var v := PointToVector(p);
    PosData(v.x, v.y)
  }

  function Grow(b: BoundBox, p: Point): BoundBox
  {
    var v := PointToVector(p);
    GrowBox(b, v.x, v.y)
  }

  function Holds(b: BoundBox, p: Point): bool
  {
    var v := PointToVector(p);
    b.Contains(v.x, v.y)
  }

  /**
   * An open spline hull: the points it was opened with, which every
   * extension compares against, the points of its current forward and
   * backward vertices, and whether it has emitted a triangle yet.
   */
  datatype Hull = Hull(forwardPoint: Point, backwardPoint: Point, forward: Point, backward: Point, moved: bool)

  /**
   * The vertex and index counts of the mesh's pending batch. They follow
   * from the stroker's calls alone, so the specification tracks them to
   * say where a vertex slot is free.
   */
  datatype Batch = Batch(vertices: nat, indices: nat)

  datatype StrokeState = StrokeState(drawn: seq<VertexData>, box: BoundBox, hull: Option<Hull>, batch: Batch)

  /** One call of the stroker into the mesh. */
  datatype StrokeOp =
    | EmitTriangle(t0: Point, t1: Point, t2: Point)
    | EmitQuad(q0: Point, q1: Point, q2: Point, q3: Point)
    | OpenHull(forward: Point, backward: Point)
    | ExtendHull(forward: Point, backward: Point)
    | CloseHull

  /**
   * The counts after a triangle that records `reused` slots recorded
   * before and adds its other vertices. A reused slot is still live unless
   * a flush has emptied the batch, in which case it is copied into a new
   * vertex as well; the index that fills the index array flushes it.
   */
  function TriangleBatch(c: Batch, reused: nat): Batch
    requires reused <= 3
  {
    if c.indices + 3 == MaxIndices then Batch(0, 0)
    else Batch(if c.vertices == 0 then 3 else c.vertices + 3 - reused, c.indices + 3)
  }

  /** Every new vertex of such a triangle finds a free slot: the mesh asserts one before each. */
  predicate TriangleFits(c: Batch, reused: nat)
    requires reused <= 3
  {
    c.vertices + 3 - reused <= MaxVertices
  }

  /** A triangle: its three points, in the order given. */
  function TriangleStep(s: StrokeState, t0: Point, t1: Point, t2: Point): StrokeState
  {
    s.(drawn := s.drawn + [PointData(t0), PointData(t1), PointData(t2)],
       box := Grow(Grow(Grow(s.box, t0), t1), t2), batch := TriangleBatch(s.batch, 0))
  }

  /** A convex quad: the triangles (q0, q1, q2) and (q0, q2, q3), the second re-using two slots of the first. */
  function QuadStep(s: StrokeState, q0: Point, q1: Point, q2: Point, q3: Point): StrokeState
  {
    s.(drawn := s.drawn + [PointData(q0), PointData(q1), PointData(q2), PointData(q0), PointData(q2), PointData(q3)],
       box := Grow(Grow(Grow(Grow(s.box, q0), q1), q2), q3),
       batch := TriangleBatch(TriangleBatch(s.batch, 0), 2))
  }

  /** Opening a hull draws nothing; its two points become its vertices, which no index names yet. */
  function OpenStep(s: StrokeState, f: Point, b: Point): StrokeState
  {
    s.(box := Grow(Grow(s.box, f), b), hull := Some(Hull(f, b, f, b, false)),
       batch := Batch(s.batch.vertices + 2, s.batch.indices))
  }

  /**
   * Extending a hull: when the forward point differs from the one the
   * hull was opened with, the triangle (forward, backward, new forward);
   * then, when the backward point differs from its opening point, the
   * triangle (forward, backward, new backward), with the forward vertex
   * already moved.
   */
  function ExtendStep(s: StrokeState, f: Point, b: Point): StrokeState
    requires s.hull.Some?
  {
    var h := s.hull.value;
    var s1 :=
      if h.forwardPoint != f then
        s.(drawn := s.drawn + [PointData(h.forward), PointData(h.backward), PointData(f)],
           box := Grow(s.box, f), hull := Some(h.(forward := f, moved := true)),
           batch := TriangleBatch(s.batch, 2))
      else s;
    var h1 := s1.hull.value;
    if h.backwardPoint != b then
      s1.(drawn := s1.drawn + [PointData(h1.forward), PointData(h1.backward), PointData(b)],
          box := Grow(s1.box, b), hull := Some(h1.(backward := b, moved := true)),
          batch := TriangleBatch(s1.batch, 2))
    else s1
  }

  /** Each triangle of an extension finds a free slot for its new vertex. */
  predicate ExtendFits(s: StrokeState, f: Point, b: Point)
    requires s.hull.Some?
  {
    var h := s.hull.value;
    && (h.forwardPoint != f ==> TriangleFits(s.batch, 2))
    && (h.backwardPoint != b ==> TriangleFits(if h.forwardPoint != f then TriangleBatch(s.batch, 2) else s.batch, 2))
  }

  /**
   * The order the stroker calls in: triangles, quads and new hulls outside
   * a hull, extensions and the close inside one. A hull may be closed
   * before it has drawn anything.
   */
  predicate Ordered(s: StrokeState, op: StrokeOp)
  {
    match op
    case ExtendHull(_, _) => s.hull.Some?
    case CloseHull => s.hull.Some?
    case _ => s.hull.None?
  }

  /** Every vertex the call adds finds a free slot in the vertex array. */
  predicate Fits(s: StrokeState, op: StrokeOp)
    requires Ordered(s, op)
  {
    match op
    case EmitTriangle(_, _, _) => TriangleFits(s.batch, 0)
    case EmitQuad(_, _, _, _) => TriangleFits(s.batch, 0) && TriangleFits(TriangleBatch(s.batch, 0), 2)
    case OpenHull(_, _) => s.batch.vertices + 2 <= MaxVertices
    case ExtendHull(f, b) => ExtendFits(s, f, b)
    case CloseHull => true
  }

  /** The protocol: calls in order, each with the vertex room the mesh asserts. */
  predicate Allowed(s: StrokeState, op: StrokeOp)
  {
    Ordered(s, op) && Fits(s, op)
  }

  function StrokeStep(s: StrokeState, op: StrokeOp): StrokeState
    requires Ordered(s, op)
  {
    match op
    case EmitTriangle(t0, t1, t2) => TriangleStep(s, t0, t1, t2)
    case EmitQuad(q0, q1, q2, q3) => QuadStep(s, q0, q1, q2, q3)
    case OpenHull(f, b) => OpenStep(s, f, b)
    case ExtendHull(f, b) => ExtendStep(s, f, b)
    case CloseHull => s.(hull := None)
  }

  predicate Protocol(s: StrokeState, ops: seq<StrokeOp>)
    decreases |ops|
  {
    ops == [] || (Allowed(s, ops[0]) && Protocol(StrokeStep(s, ops[0]), ops[1..]))
  }

  /** A whole run of the stroker. */
  function StrokeRun(s: StrokeState, ops: seq<StrokeOp>): StrokeState
    requires Protocol(s, ops)
    decreases |ops|
  {
    if ops == [] then s else StrokeRun(StrokeStep(s, ops[0]), ops[1..])
  }

  // ---------------------------------------------------------------------
  // Properties of the specification
  // ---------------------------------------------------------------------

  /** Extensions of a hull, one after the other. */
  function ExtendAll(s: StrokeState, fs: seq<Point>, bs: seq<Point>): StrokeState
    requires s.hull.Some? && |fs| == |bs|
    decreases |fs|
  {
    if fs == [] then s else ExtendAll(ExtendStep(s, fs[0], bs[0]), fs[1..], bs[1..])
  }

  /**
   * Extensions never change the points a hull was opened with, so every
   * comparison is against the opening points, and extensions at those
   * points draw nothing and need no vertex slot.
   */
  lemma {:induction false} ExtensionsCompareWithOpening(s: StrokeState, fs: seq<Point>, bs: seq<Point>)
    requires s.hull.Some? && |fs| == |bs|
    ensures ExtendAll(s, fs, bs).hull.Some?
    ensures ExtendAll(s, fs, bs).hull.value.forwardPoint == s.hull.value.forwardPoint
    ensures ExtendAll(s, fs, bs).hull.value.backwardPoint == s.hull.value.backwardPoint
    ensures (forall i :: 0 <= i < |fs| ==> fs[i] == s.hull.value.forwardPoint && bs[i] == s.hull.value.backwardPoint)
            ==> ExtendAll(s, fs, bs) == s && ExtendsFit(s, fs, bs)
    decreases |fs|
  {
    if fs != [] {
      ExtensionsCompareWithOpening(ExtendStep(s, fs[0], bs[0]), fs[1..], bs[1..]);
      if forall i :: 0 <= i < |fs| ==> fs[i] == s.hull.value.forwardPoint && bs[i] == s.hull.value.backwardPoint {
        assert fs[0] == s.hull.value.forwardPoint && bs[0] == s.hull.value.backwardPoint;
        forall i | 0 <= i < |fs| - 1
          ensures fs[1..][i] == s.hull.value.forwardPoint && bs[1..][i] == s.hull.value.backwardPoint
        {
          assert fs[1..][i] == fs[i + 1] && bs[1..][i] == bs[i + 1];
        }
      }
    }
  }

  /** Extending by two runs of points, one after the other, is extending by their concatenation. */
  lemma {:induction false} ExtendAllAppend(s: StrokeState, fs1: seq<Point>, bs1: seq<Point>, fs2: seq<Point>, bs2: seq<Point>)
    requires s.hull.Some? && |fs1| == |bs1| && |fs2| == |bs2|
    ensures ExtendAll(s, fs1, bs1).hull.Some?
    ensures ExtendAll(s, fs1 + fs2, bs1 + bs2) == ExtendAll(ExtendAll(s, fs1, bs1), fs2, bs2)
    decreases |fs1|
  {
    ExtensionsCompareWithOpening(s, fs1, bs1);
    if fs1 == [] {
      assert fs1 + fs2 == fs2 && bs1 + bs2 == bs2;
    } else {
      assert (fs1 + fs2)[1..] == fs1[1..] + fs2 && (bs1 + bs2)[1..] == bs1[1..] + bs2;
      ExtendAllAppend(ExtendStep(s, fs1[0], bs1[0]), fs1[1..], bs1[1..], fs2, bs2);
    }
  }

  /** One more extension at the end of a run. */
  lemma ExtendAllSnoc(s: StrokeState, fs: seq<Point>, bs: seq<Point>, f: Point, b: Point)
    requires s.hull.Some? && |fs| == |bs|
    ensures ExtendAll(s, fs, bs).hull.Some?
    ensures ExtendAll(s, fs + [f], bs + [b]) == ExtendStep(ExtendAll(s, fs, bs), f, b)
  {
    ExtendAllAppend(s, fs, bs, [f], [b]);
    var e := ExtendAll(s, fs, bs);
    assert ExtendAll(e, [f], [b]) == ExtendAll(ExtendStep(e, f, b), [], []);
  }

  /** Every extension of a run finds a free slot for each vertex it adds. */
  predicate ExtendsFit(s: StrokeState, fs: seq<Point>, bs: seq<Point>)
    requires s.hull.Some? && |fs| == |bs|
    decreases |fs|
  {
    fs == [] || (ExtendFits(s, fs[0], bs[0]) && ExtendsFit(ExtendStep(s, fs[0], bs[0]), fs[1..], bs[1..]))
  }

  /** Two runs of extensions fit exactly when the first fits and the second fits after it. */
  lemma {:induction false} ExtendsFitAppend(s: StrokeState, fs1: seq<Point>, bs1: seq<Point>, fs2: seq<Point>, bs2: seq<Point>)
    requires s.hull.Some? && |fs1| == |bs1| && |fs2| == |bs2|
    ensures ExtendAll(s, fs1, bs1).hull.Some?
    ensures ExtendsFit(s, fs1 + fs2, bs1 + bs2) == (ExtendsFit(s, fs1, bs1) && ExtendsFit(ExtendAll(s, fs1, bs1), fs2, bs2))
    decreases |fs1|
  {
    ExtensionsCompareWithOpening(s, fs1, bs1);
    if fs1 == [] {
      assert fs1 + fs2 == fs2 && bs1 + bs2 == bs2;
    } else {
      assert (fs1 + fs2)[1..] == fs1[1..] + fs2 && (bs1 + bs2)[1..] == bs1[1..] + bs2;
      assert (fs1 + fs2)[0] == fs1[0] && (bs1 + bs2)[0] == bs1[0];
      ExtendsFitAppend(ExtendStep(s, fs1[0], bs1[0]), fs1[1..], bs1[1..], fs2, bs2);
    }
  }

  /** Every emitter draws whole triangles. */
  lemma {:induction false} StrokeRunDrawsTriangles(s: StrokeState, ops: seq<StrokeOp>)
    requires Protocol(s, ops) && |s.drawn| % 3 == 0
    ensures |StrokeRun(s, ops).drawn| % 3 == 0
    decreases |ops|
  {
    if ops != [] {
      StrokeRunDrawsTriangles(StrokeStep(s, ops[0]), ops[1..]);
    }
  }

  /** The hull's vertices lie in the box. */
  ghost predicate HullInBox(s: StrokeState)
  {
    s.hull.Some? ==> Holds(s.box, s.hull.value.forward) && Holds(s.box, s.hull.value.backward)
  }

  /** The drawn data from index `from` on lies in the box. */
  ghost predicate DrawnInBox(s: StrokeState, from: nat)
  {
    forall k :: from <= k < |s.drawn| ==> s.box.Contains(s.drawn[k].pos.x, s.drawn[k].pos.y)
  }

  /** Growing a box by a point keeps what it held and then holds the point. */
  lemma GrowHolds(b: BoundBox, p: Point, q: Point)
    requires Holds(b, q)
    ensures Holds(Grow(b, p), q) && Holds(Grow(b, p), p)
  {
    var v := PointToVector(p);
    GrowBoxKeeps(b, v.x, v.y);
  }

  lemma GrowKeeps(s: StrokeState, p: Point, from: nat)
    requires HullInBox(s) && DrawnInBox(s, from)
    ensures HullInBox(s.(box := Grow(s.box, p))) && DrawnInBox(s.(box := Grow(s.box, p)), from)
    ensures Holds(Grow(s.box, p), p)
  {
    var v := PointToVector(p);
    GrowBoxKeeps(s.box, v.x, v.y);
  }

  lemma StepCovers(s: StrokeState, op: StrokeOp, from: nat)
    requires Ordered(s, op) && HullInBox(s) && DrawnInBox(s, from) && from <= |s.drawn|
    ensures HullInBox(StrokeStep(s, op)) && DrawnInBox(StrokeStep(s, op), from)
    ensures |StrokeStep(s, op).drawn| >= |s.drawn|
  {
    match op
    case EmitTriangle(t0, t1, t2) =>
      var b1 := Grow(s.box, t0);
      var b2 := Grow(b1, t1);
      GrowKeeps(s, t0, from);
      GrowKeeps(s.(box := b1), t1, from);
      GrowKeeps(s.(box := b2), t2, from);
    case EmitQuad(q0, q1, q2, q3) =>
      var b1 := Grow(s.box, q0);
      var b2 := Grow(b1, q1);
      var b3 := Grow(b2, q2);
      GrowKeeps(s, q0, from);
      GrowKeeps(s.(box := b1), q1, from);
      GrowKeeps(s.(box := b2), q2, from);
      GrowKeeps(s.(box := b3), q3, from);
    case OpenHull(f, b) =>
      GrowKeeps(s, f, from);
      GrowKeeps(s.(box := Grow(s.box, f)), b, from);
    case ExtendHull(f, b) => ExtendCovers(s, f, b, from);
    case CloseHull =>
  }

  lemma ExtendCovers(s: StrokeState, f: Point, b: Point, from: nat)
    requires s.hull.Some? && HullInBox(s) && DrawnInBox(s, from) && from <= |s.drawn|
    ensures HullInBox(ExtendStep(s, f, b)) && DrawnInBox(ExtendStep(s, f, b), from)
    ensures |ExtendStep(s, f, b).drawn| >= |s.drawn|
  {
    var h := s.hull.value;
    var s1 := if h.forwardPoint != f then
                s.(drawn := s.drawn + [PointData(h.forward), PointData(h.backward), PointData(f)],
                   box := Grow(s.box, f), hull := Some(h.(forward := f, moved := true)))
              else s;
    if h.forwardPoint != f {
      GrowKeeps(s, f, from);
    }
    assert HullInBox(s1) && DrawnInBox(s1, from);
    if h.backwardPoint != b {
      GrowKeeps(s1, b, from);
    }
  }

  /**
   * Every vertex a stroke run draws lies in the box it ends with, so the
   * quad the box describes covers the whole stroke.
   */
  lemma {:induction false} StrokeRunCovers(s: StrokeState, ops: seq<StrokeOp>, from: nat)
    requires Protocol(s, ops) && HullInBox(s) && DrawnInBox(s, from) && from <= |s.drawn|
    ensures HullInBox(StrokeRun(s, ops)) && DrawnInBox(StrokeRun(s, ops), from)
    decreases |ops|
  {
    if ops != [] {
      StepCovers(s, ops[0], from);
      StrokeRunCovers(StrokeStep(s, ops[0]), ops[1..], from);
    }
  }

  /**
   * The counts of a batch in which every hull draws before it is closed:
   * whole triangles, and no more vertices than indices except the two of a
   * hull that has not drawn yet.
   */
  ghost predicate Packed(s: StrokeState)
  {
    && s.batch.indices % 3 == 0 && s.batch.indices < MaxIndices
    && s.batch.vertices <= s.batch.indices + (if s.hull.Some? && !s.hull.value.moved then 2 else 0)
  }

  /** A run in order in which every hull draws a triangle before it is closed. */
  predicate Tidy(s: StrokeState, ops: seq<StrokeOp>)
    decreases |ops|
  {
    ops == [] ||
    (&& Ordered(s, ops[0]) && (ops[0].CloseHull? ==> s.hull.value.moved)
     && Tidy(StrokeStep(s, ops[0]), ops[1..]))
  }

  /** A triangle on a packed batch that keeps at most `extra` vertices unindexed fits, and packs it again. */
  lemma TriangleKeepsPacked(c: Batch, reused: nat, extra: nat)
    requires reused <= 3 && extra <= reused
    requires c.indices % 3 == 0 && c.indices < MaxIndices && c.vertices <= c.indices + extra
    ensures TriangleFits(c, reused)
    ensures var d := TriangleBatch(c, reused);
            d.indices % 3 == 0 && d.indices < MaxIndices && d.vertices <= d.indices
  {
    FlushFallsOnTriangleBoundary(c.indices);
  }

  lemma ExtendKeepsPacked(s: StrokeState, f: Point, b: Point)
    requires s.hull.Some? && Packed(s)
    ensures ExtendFits(s, f, b) && Packed(ExtendStep(s, f, b))
  {
    var h := s.hull.value;
    var extra := if h.moved then 0 else 2;
    if h.forwardPoint != f {
      TriangleKeepsPacked(s.batch, 2, extra);
      var c1 := TriangleBatch(s.batch, 2);
      if h.backwardPoint != b {
        TriangleKeepsPacked(c1, 2, 0);
      }
    } else if h.backwardPoint != b {
      TriangleKeepsPacked(s.batch, 2, extra);
    }
  }

  lemma TidyStepFits(s: StrokeState, op: StrokeOp)
    requires Packed(s) && Ordered(s, op) && (op.CloseHull? ==> s.hull.value.moved)
    ensures Fits(s, op) && Packed(StrokeStep(s, op))
  {
    match op
    case EmitTriangle(_, _, _) => TriangleKeepsPacked(s.batch, 0, 0);
    case EmitQuad(_, _, _, _) =>
      TriangleKeepsPacked(s.batch, 0, 0);
      TriangleKeepsPacked(TriangleBatch(s.batch, 0), 2, 0);
    case OpenHull(_, _) => FlushFallsOnTriangleBoundary(s.batch.indices);
    case ExtendHull(f, b) => ExtendKeepsPacked(s, f, b);
    case CloseHull =>
  }

  /**
   * A run in which every hull draws before it is closed always finds a
   * free vertex slot: the vertex count never passes the index count by
   * more than the two vertices of a fresh hull.
   */
  lemma {:induction false} TidyRunsFit(s: StrokeState, ops: seq<StrokeOp>)
    requires Packed(s) && Tidy(s, ops)
    ensures Protocol(s, ops)
    decreases |ops|
  {
    if ops != [] {
      TidyStepFits(s, ops[0]);
      TidyRunsFit(StrokeStep(s, ops[0]), ops[1..]);
    }
  }

  /** `n` hulls at f and b, each closed as soon as it is opened. */
  function IdleHulls(n: nat, f: Point, b: Point): seq<StrokeOp>
  {
    if n == 0 then [] else [OpenHull(f, b), CloseHull] + IdleHulls(n - 1, f, b)
  }

  /**
   * A hull closed before it draws leaves its two vertices in the batch
   * with no index naming them, and only a full index array flushes: n such
   * hulls add 2n vertices and not one index or triangle.
   */
  lemma {:induction false} IdleHullsLeaveVertices(s: StrokeState, n: nat, f: Point, b: Point)
    requires s.hull.None? && s.batch.vertices + 2 * n <= MaxVertices
    ensures Protocol(s, IdleHulls(n, f, b))
    ensures var t := StrokeRun(s, IdleHulls(n, f, b));
            t.drawn == s.drawn && t.hull.None? && t.batch == Batch(s.batch.vertices + 2 * n, s.batch.indices)
    decreases n
  {
    if n > 0 {
      var s2 := OpenStep(s, f, b).(hull := None);
      IdleHullsLeaveVertices(s2, n - 1, f, b);
      assert IdleHulls(n, f, b) == [OpenHull(f, b), CloseHull] + IdleHulls(n - 1, f, b);
      IdleHullUnfolds(s, f, b, IdleHulls(n - 1, f, b));
    }
  }

  /** One idle hull in front of a run: the run from the state the hull leaves. */
  lemma IdleHullUnfolds(s: StrokeState, f: Point, b: Point, rest: seq<StrokeOp>)
    requires s.hull.None? && s.batch.vertices + 2 <= MaxVertices
    requires Protocol(OpenStep(s, f, b).(hull := None), rest)
    ensures Protocol(s, [OpenHull(f, b), CloseHull] + rest)
    ensures StrokeRun(s, [OpenHull(f, b), CloseHull] + rest) == StrokeRun(OpenStep(s, f, b).(hull := None), rest)
  {
    var ops := [OpenHull(f, b), CloseHull] + rest;
    var s1 := OpenStep(s, f, b);
    assert ops[1..] == [CloseHull] + rest;
    assert ([CloseHull] + rest)[1..] == rest;
    assert Protocol(s1, [CloseHull] + rest) && StrokeRun(s1, [CloseHull] + rest) == StrokeRun(s1.(hull := None), rest);
  }

  /**
   * From an empty batch, MaxVertices / 2 idle hulls fill the vertex array
   * while the index array stays empty; after them no call that adds a
   * vertex fits, so the mesh's assertion of a free slot would fail.
   */
  lemma IdleHullsExhaustVertices(drawn: seq<VertexData>, f: Point, b: Point)
    ensures Protocol(StrokeStart(drawn), IdleHulls(MaxVertices / 2, f, b))
    ensures var t := StrokeRun(StrokeStart(drawn), IdleHulls(MaxVertices / 2, f, b));
            && t.batch == Batch(MaxVertices, 0)
            && !Allowed(t, OpenHull(f, b)) && !Allowed(t, EmitTriangle(f, f, b))
  {
    IdleHullsLeaveVertices(StrokeStart(drawn), MaxVertices / 2, f, b);
  }

  // ---------------------------------------------------------------------
  // The emitters
  // ---------------------------------------------------------------------

  class StrokePathMesh {
    const base: Mesh
    var forwardPoint: Point
    var backwardPoint: Point
    var forwardIndex: VertexIndex
    var backwardIndex: VertexIndex
    /** Whether a hull is open, the points its vertices hold, and whether it has emitted a triangle. */
    ghost var hullOpen: bool
    ghost var forwardAt: Point
    ghost var backwardAt: Point
    ghost var moved: bool

    /**
     * The mesh holds whole triangles. Inside a hull the two hull slots
     * hold the hull's vertices, the backward slot is never slot 0, and
     * either both slots are current or a flush has emptied the mesh.
     */
    ghost predicate Valid()
      reads this, base, base.vertices, base.indices, base.texCoords
    {
      && base.Valid() && base.texCoords == null && base.numIndices % 3 == 0
      && (hullOpen ==> HullHeld())
    }

    ghost predicate HullHeld()
      reads this, base, base.vertices, base.indices, base.texCoords
    {
      && forwardIndex < base.issued && 1 <= backwardIndex < base.issued
      && base.DataAt(forwardIndex) == PointData(forwardAt) && base.DataAt(backwardIndex) == PointData(backwardAt)
      && Holds(base.box, forwardAt) && Holds(base.box, backwardAt)
      && ((forwardIndex < base.numVertices && backwardIndex < base.numVertices) || base.numVertices == 0)
    }

    /** The emitter's progress, in the terms of the specification. */
    ghost function Now(): StrokeState
      reads this, base, base.device, base.vertices, base.indices, base.texCoords
      requires base.numIndices <= base.indices.Length
    {
      StrokeState(base.Stream(), base.box,
                  if hullOpen then Some(Hull(forwardPoint, backwardPoint, forwardAt, backwardAt, moved)) else None,
                  Batch(base.numVertices, base.numIndices))
    }

    /** An empty batch has no index either: every index names a vertex below the count. */
    lemma EmptyBatch()
      requires base.Valid()
      ensures base.numVertices == 0 ==> base.numIndices == 0
    {
      if base.numIndices > 0 {
        assert base.indices[0] < base.numVertices;
      }
    }

    /** The stroke mesh: no texture coordinates, no hull. */
    constructor (device: Device, vertices: array<VertexPos>, indices: array<VertexIndex>)
      requires vertices.Length == MaxVertices && indices.Length == MaxIndices
      ensures Valid() && base.splines.Valid() && fresh(base) && fresh(base.splines)
      ensures base.device == device && base.vertices == vertices && base.indices == indices
      ensures Now() == StrokeStart(StreamOf(device.submissions))
    {
      base := new Mesh.Init(device, vertices, null, indices);
      forwardPoint, backwardPoint := Point(0, 0), Point(0, 0);
      forwardIndex, backwardIndex := 0, 0;
      hullOpen, moved := false, false;
      forwardAt, backwardAt := Point(0, 0), Point(0, 0);
    }

    /** A vertex at p and an index for it; returns the slot the index records. */
    method EmitPoint(p: Point) returns (index: VertexIndex)
      requires base.Valid() && base.texCoords == null && base.numVertices < MaxVertices
      modifies base`numVertices, base`numIndices, base`box, base`issued, base.vertices, base.indices, base.device
      ensures base.Valid()
      ensures old(base.numIndices) + 1 < MaxIndices ==>
                base.numIndices == old(base.numIndices) + 1 && base.numVertices == old(base.numVertices) + 1
      ensures old(base.numIndices) + 1 == MaxIndices ==> base.numIndices == 0 && base.numVertices == 0
      ensures base.Stream() == old(base.Stream()) + [PointData(p)]
      ensures base.box == Grow(old(base.box), p)
      ensures index == old(base.numVertices) && index < base.issued && base.DataAt(index) == PointData(p)
      ensures index < base.numVertices || (base.numVertices == 0 && base.numIndices == 0)
      ensures forall s :: 0 <= s < old(base.numVertices) ==> base.DataAt(s) == old(base.DataAt(s))
    {
      var v := PointToVector(p);
      index := base.AddVertexFloat(v.x, v.y);
      var _ := base.AddIndex(index);
    }

    /** A triangle: three vertices, each with its index, in the order given. */
    method Triangle(t0: Point, t1: Point, t2: Point) returns (status: Status)
      requires Valid() && !hullOpen && base.numVertices + 3 <= MaxVertices
      modifies base`numVertices, base`numIndices, base`box, base`issued, base.vertices, base.indices, base.device
      ensures Valid() && status == Success
      ensures Now() == TriangleStep(old(Now()), t0, t1, t2)
    {
      ghost var stream, count := base.Stream(), base.numIndices;
      FlushFallsOnTriangleBoundary(count);
      var _ := EmitPoint(t0);
      var _ := EmitPoint(t1);
      var _ := EmitPoint(t2);
      TriangleDone(count, base.numIndices);
      AppendThree(stream, PointData(t0), PointData(t1), PointData(t2));
      status := Success;
    }

    /**
     * A convex quad: the first triangle over three new vertices, then the
     * second re-using the recorded first and third slots and a new fourth
     * vertex.
     */
    method ConvexQuad(q0: Point, q1: Point, q2: Point, q3: Point) returns (status: Status)
      requires Valid() && !hullOpen && base.numVertices + 3 <= MaxVertices
      requires base.numIndices + 3 < MaxIndices ==> base.numVertices + 4 <= MaxVertices
      modifies base`numVertices, base`numIndices, base`box, base`issued, base.vertices, base.indices, base.device
      ensures Valid() && status == Success
      ensures Now() == QuadStep(old(Now()), q0, q1, q2, q3)
    {
      ghost var stream, c := base.Stream(), Batch(base.numVertices, base.numIndices);
      var index0, index2 := QuadFirstTriangle(q0, q1, q2);
      assert base.numVertices + 1 <= MaxVertices;
      QuadSecondTriangle(index0, index2, q0, q2, q3);
      assert Batch(base.numVertices, base.numIndices) == TriangleBatch(TriangleBatch(c, 0), 2);
      AppendTwoTriangles(stream, PointData(q0), PointData(q1), PointData(q2), PointData(q0), PointData(q2), PointData(q3));
      status := Success;
    }

    /** The slots of the quad's first and third vertices are ready for the second triangle. */
    ghost predicate QuadHalf(index0: VertexIndex, index2: VertexIndex, q0: Point, q2: Point)
      reads this, base, base.vertices, base.indices, base.texCoords
    {
      && base.Valid() && base.texCoords == null && base.numIndices % 3 == 0
      && index0 < index2 < base.issued
      && base.DataAt(index0) == PointData(q0) && base.DataAt(index2) == PointData(q2)
      && Holds(base.box, q0) && Holds(base.box, q2)
      && (index2 < base.numVertices || (base.numVertices == 0 && base.numIndices == 0))
    }

    method QuadFirstTriangle(q0: Point, q1: Point, q2: Point) returns (index0: VertexIndex, index2: VertexIndex)
      requires Valid() && !hullOpen && base.numVertices + 3 <= MaxVertices
      modifies base`numVertices, base`numIndices, base`box, base`issued, base.vertices, base.indices, base.device
      ensures QuadHalf(index0, index2, q0, q2)
      ensures Batch(base.numVertices, base.numIndices) == TriangleBatch(Batch(old(base.numVertices), old(base.numIndices)), 0)
      ensures base.Stream() == old(base.Stream()) + [PointData(q0), PointData(q1), PointData(q2)]
      ensures base.box == Grow(Grow(Grow(old(base.box), q0), q1), q2)
    {
      ghost var stream, count := base.Stream(), base.numIndices;
      FlushFallsOnTriangleBoundary(count);
      index0 := EmitPoint(q0);
      GrowHolds(base.box, q1, q0);
      var _ := EmitPoint(q1);
      GrowHolds(base.box, q2, q0);
      index2 := EmitPoint(q2);
      TriangleDone(count, base.numIndices);
      AppendThree(stream, PointData(q0), PointData(q1), PointData(q2));
    }

    method QuadSecondTriangle(index0: VertexIndex, index2: VertexIndex, q0: Point, q2: Point, q3: Point)
      requires QuadHalf(index0, index2, q0, q2) && !hullOpen && base.numVertices + 1 <= MaxVertices
      modifies base`numVertices, base`numIndices, base`box, base`issued, base.vertices, base.indices, base.device
      ensures Valid()
      ensures Batch(base.numVertices, base.numIndices) == TriangleBatch(Batch(old(base.numVertices), old(base.numIndices)), 2)
      ensures base.Stream() == old(base.Stream()) + [PointData(q0), PointData(q2), PointData(q3)]
      ensures base.box == Grow(old(base.box), q3)
    {
      ghost var stream, count := base.Stream(), base.numIndices;
      FlushFallsOnTriangleBoundary(count);
      RecordQuadSlots(index0, index2, q0, q2);
      var _ := EmitPoint(q3);
      TriangleDone(count, base.numIndices);
      AppendThree(stream, PointData(q0), PointData(q2), PointData(q3));
    }

    /** The first and third slots of the quad recorded again, each re-materialised if a flush submitted it. */
    method RecordQuadSlots(index0: VertexIndex, index2: VertexIndex, q0: Point, q2: Point)
      requires QuadHalf(index0, index2, q0, q2) && base.numVertices + 1 <= MaxVertices
      modifies base`numVertices, base`numIndices, base`box, base`issued, base.vertices, base.indices, base.device
      ensures base.Valid() && base.texCoords == null && base.numVertices < MaxVertices
      ensures base.numIndices == old(base.numIndices) + 2
      ensures base.numVertices == (if old(base.numVertices) == 0 then 2 else old(base.numVertices))
      ensures base.Stream() == old(base.Stream()) + [PointData(q0)] + [PointData(q2)]
      ensures base.box == old(base.box)
    {
      ghost var count := base.numIndices;
      FlushFallsOnTriangleBoundary(count);
      var v0, v2 := PointToVector(q0), PointToVector(q2);
      GrowBoxSame(base.box, v0.x, v0.y);
      var _ := base.AddIndex(index0);
      GrowBoxSame(base.box, v2.x, v2.y);
      var _ := base.AddIndex(index2);
    }

    /** Opening a hull: its two vertices, no index. */
    method SplineOpen(forward: Point, backward: Point) returns (status: Status)
      requires Valid() && !hullOpen && base.numVertices + 2 <= MaxVertices
      modifies this, base`numVertices, base`box, base`issued, base.vertices
      ensures Valid() && status == Success
      ensures Now() == OpenStep(old(Now()), forward, backward)
      ensures base.numVertices == old(base.numVertices) + 2 && base.numIndices == old(base.numIndices)
    {
      var f, b := AddHullPair(forward, backward);
      HoldHull(forward, backward, f, b);
      status := Success;
    }

    /** The hull's points and slots, once its two vertices are in the batch. */
    method HoldHull(forward: Point, backward: Point, f: VertexIndex, b: VertexIndex)
      requires base.Valid() && base.texCoords == null && base.numIndices % 3 == 0
      requires f < b < base.numVertices && b < base.issued
      requires base.DataAt(f) == PointData(forward) && base.DataAt(b) == PointData(backward)
      requires Holds(base.box, forward) && Holds(base.box, backward)
      modifies this
      ensures Valid() && Now() == old(Now()).(hull := Some(Hull(forward, backward, forward, backward, false)))
    {
      forwardPoint, backwardPoint := forward, backward;
      forwardIndex, backwardIndex := f, b;
      hullOpen, moved := true, false;
      forwardAt, backwardAt := forward, backward;
    }

    /** The two vertices of a new hull, forward first. */
    method AddHullPair(forward: Point, backward: Point) returns (f: VertexIndex, b: VertexIndex)
      requires base.Valid() && base.texCoords == null
      requires base.numVertices + 2 <= MaxVertices
      modifies base`numVertices, base`box, base`issued, base.vertices
      ensures base.Valid() && base.numVertices == old(base.numVertices) + 2
      ensures f == old(base.numVertices) && b == f + 1 && b < base.issued
      ensures base.DataAt(f) == PointData(forward) && base.DataAt(b) == PointData(backward)
      ensures Holds(base.box, forward) && Holds(base.box, backward)
      ensures base.box == Grow(Grow(old(base.box), forward), backward)
      ensures base.Stream() == old(base.Stream())
    {
      var fv, bv := PointToVector(forward), PointToVector(backward);
      f, b := base.AddVertexPair(fv.x, fv.y, bv.x, bv.y);
    }

    /** Extending the hull, forward side first; each side compares against its opening point. */
    method SplineExtend(forward: Point, backward: Point) returns (status: Status)
      requires Valid() && hullOpen && ExtendFits(Now(), forward, backward)
      modifies this, base`numVertices, base`numIndices, base`box, base`issued, base.vertices, base.indices, base.device
      ensures Valid() && hullOpen && status == Success
      ensures Now() == ExtendStep(old(Now()), forward, backward)
    {
      if forwardPoint != forward {
        ExtendForward(forward);
      }
      if backwardPoint != backward {
        ExtendBackward(backward);
      }
      status := Success;
    }

    /** The triangle (forward, backward, new forward). */
    method ExtendForward(p: Point)
      requires Valid() && hullOpen && base.numVertices + 1 <= MaxVertices
      modifies this`forwardIndex, this`backwardIndex, this`forwardAt, this`moved
      modifies base`numVertices, base`numIndices, base`box, base`issued, base.vertices, base.indices, base.device
      ensures Valid() && hullOpen && forwardAt == p && moved
      ensures Batch(base.numVertices, base.numIndices) == TriangleBatch(Batch(old(base.numVertices), old(base.numIndices)), 2)
      ensures base.Stream() == old(base.Stream()) + [PointData(old(forwardAt)), PointData(backwardAt), PointData(p)]
      ensures base.box == Grow(old(base.box), p)
    {
      var index := HullTriangle(p);
      forwardIndex := index;
      forwardAt, moved := p, true;
    }

    /** The triangle (forward, backward, new backward). */
    method ExtendBackward(p: Point)
      requires Valid() && hullOpen && base.numVertices + 1 <= MaxVertices
      modifies this`forwardIndex, this`backwardIndex, this`backwardAt, this`moved
      modifies base`numVertices, base`numIndices, base`box, base`issued, base.vertices, base.indices, base.device
      ensures Valid() && hullOpen && backwardAt == p && moved
      ensures Batch(base.numVertices, base.numIndices) == TriangleBatch(Batch(old(base.numVertices), old(base.numIndices)), 2)
      ensures base.Stream() == old(base.Stream()) + [PointData(forwardAt), PointData(old(backwardAt)), PointData(p)]
      ensures base.box == Grow(old(base.box), p)
    {
      var index := HullTriangle(p);
      backwardIndex := index;
      backwardAt, moved := p, true;
    }

    /** The triangle (forward, backward, p): both hull slots recorded, then the new vertex. */
    method HullTriangle(p: Point) returns (index: VertexIndex)
      requires Valid() && hullOpen && base.numVertices + 1 <= MaxVertices
      modifies this`forwardIndex, this`backwardIndex
      modifies base`numVertices, base`numIndices, base`box, base`issued, base.vertices, base.indices, base.device
      ensures base.Valid() && base.texCoords == null && base.numIndices % 3 == 0
      ensures Batch(base.numVertices, base.numIndices) == TriangleBatch(Batch(old(base.numVertices), old(base.numIndices)), 2)
      ensures 1 <= index < base.issued && base.DataAt(index) == PointData(p)
      ensures base.DataAt(forwardIndex) == PointData(forwardAt) && base.DataAt(backwardIndex) == PointData(backwardAt)
      ensures forwardIndex < base.issued && 1 <= backwardIndex < base.issued
      ensures Holds(base.box, forwardAt) && Holds(base.box, backwardAt) && Holds(base.box, p)
      ensures (forwardIndex < base.numVertices && backwardIndex < base.numVertices && index < base.numVertices)
              || base.numVertices == 0
      ensures base.Stream() == old(base.Stream()) + [PointData(forwardAt), PointData(backwardAt), PointData(p)]
      ensures base.box == Grow(old(base.box), p)
    {
      ghost var stream := base.Stream();
      RecordHullSlots();
      index := AddHullVertex(p);
      AppendThree(stream, PointData(forwardAt), PointData(backwardAt), PointData(p));
    }

    /** Both hull slots recorded, each re-materialised if a flush submitted it. */
    method RecordHullSlots()
      requires Valid() && hullOpen && base.numVertices + 1 <= MaxVertices
      modifies this`forwardIndex, this`backwardIndex
      modifies base`numVertices, base`numIndices, base`box, base`issued, base.vertices, base.indices, base.device
      ensures PairRecorded()
      ensures base.numIndices == old(base.numIndices) + 2
      ensures base.numVertices == (if old(base.numVertices) == 0 then 2 else old(base.numVertices))
      ensures base.Stream() == old(base.Stream()) + [PointData(forwardAt)] + [PointData(backwardAt)]
      ensures base.box == old(base.box)
    {
      EmptyBatch();
      RecordForward();
      RecordBackward();
    }

    /** The forward slot has been recorded as the first index of a hull triangle. */
    ghost predicate ForwardRecorded()
      reads this, base, base.vertices, base.indices, base.texCoords
    {
      && base.Valid() && base.texCoords == null && hullOpen
      && base.numIndices % 3 == 1 && base.numIndices + 1 < MaxIndices
      && forwardIndex < base.numVertices && 1 <= backwardIndex < base.issued
      && base.DataAt(forwardIndex) == PointData(forwardAt) && base.DataAt(backwardIndex) == PointData(backwardAt)
      && Holds(base.box, forwardAt) && Holds(base.box, backwardAt)
      && base.numVertices + (if backwardIndex < base.numVertices then 0 else 1) < MaxVertices
    }

    /** Both hull slots have been recorded: the triangle lacks its last index. */
    ghost predicate PairRecorded()
      reads this, base, base.vertices, base.indices, base.texCoords
    {
      && base.Valid() && base.texCoords == null && hullOpen
      && base.numIndices % 3 == 2
      && forwardIndex < base.numVertices && 1 <= backwardIndex < base.numVertices
      && base.DataAt(forwardIndex) == PointData(forwardAt) && base.DataAt(backwardIndex) == PointData(backwardAt)
      && Holds(base.box, forwardAt) && Holds(base.box, backwardAt)
      && base.numVertices < MaxVertices
    }

    /** The forward slot, re-materialised if a flush submitted it. */
    method RecordForward()
      requires Valid() && hullOpen && base.numVertices + 1 <= MaxVertices
      modifies this`forwardIndex, base`numVertices, base`numIndices, base`box, base`issued
      modifies base.vertices, base.indices, base.device
      ensures ForwardRecorded()
      ensures base.numIndices == old(base.numIndices) + 1
      ensures base.numVertices == (if old(base.numVertices) == 0 then 1 else old(base.numVertices))
      ensures base.Stream() == old(base.Stream()) + [PointData(forwardAt)] && base.box == old(base.box)
    {
      ghost var count := base.numIndices;
      FlushFallsOnTriangleBoundary(count);
      var f := PointToVector(forwardAt);
      assert base.vertices[forwardIndex].x == f.x && base.vertices[forwardIndex].y == f.y;
      GrowBoxSame(base.box, f.x, f.y);
      forwardIndex := base.AddIndex(forwardIndex);
      NextResidue(count, base.numIndices, 0);
    }

    /** The backward slot, re-materialised if a flush submitted it. */
    method RecordBackward()
      requires ForwardRecorded()
      modifies this`backwardIndex, base`numVertices, base`numIndices, base`box, base`issued
      modifies base.vertices, base.indices, base.device
      ensures PairRecorded()
      ensures base.numIndices == old(base.numIndices) + 1
      ensures base.numVertices == old(base.numVertices) + (if old(backwardIndex) < old(base.numVertices) then 0 else 1)
      ensures base.Stream() == old(base.Stream()) + [PointData(backwardAt)] && base.box == old(base.box)
    {
      var b := PointToVector(backwardAt);
      assert base.vertices[backwardIndex].x == b.x && base.vertices[backwardIndex].y == b.y;
      GrowBoxSame(base.box, b.x, b.y);
      ghost var count := base.numIndices;
      backwardIndex := base.AddIndex(backwardIndex);
      NextResidue(count, base.numIndices, 1);
    }

    /** The new hull vertex and its index, closing the triangle. */
    method AddHullVertex(p: Point) returns (index: VertexIndex)
      requires PairRecorded()
      modifies base`numVertices, base`numIndices, base`box, base`issued, base.vertices, base.indices, base.device
      ensures base.Valid() && base.numIndices % 3 == 0
      ensures old(base.numIndices) + 1 < MaxIndices ==>
                base.numIndices == old(base.numIndices) + 1 && base.numVertices == old(base.numVertices) + 1
      ensures old(base.numIndices) + 1 == MaxIndices ==> base.numIndices == 0 && base.numVertices == 0
      ensures 1 <= index < base.issued && base.DataAt(index) == PointData(p)
      ensures base.DataAt(forwardIndex) == PointData(forwardAt) && base.DataAt(backwardIndex) == PointData(backwardAt)
      ensures forwardIndex < base.issued && backwardIndex < base.issued
      ensures Holds(base.box, forwardAt) && Holds(base.box, backwardAt) && Holds(base.box, p)
      ensures (forwardIndex < base.numVertices && backwardIndex < base.numVertices && index < base.numVertices)
              || base.numVertices == 0
      ensures base.Stream() == old(base.Stream()) + [PointData(p)]
      ensures base.box == Grow(old(base.box), p)
    {
      var v := PointToVector(p);
      GrowBoxKeeps(base.box, v.x, v.y);
      ghost var count := base.numIndices;
      index := EmitPoint(p);
      NextResidue(count, base.numIndices, 2);
    }

    /**
     * Closing a hull draws nothing. A hull that has not drawn leaves its
     * two vertices in the batch with no index naming them.
     */
    method SplineClose() returns (status: Status)
      requires Valid() && hullOpen
      modifies this`hullOpen
      ensures Valid() && !hullOpen && status == Success
      ensures Now() == old(Now()).(hull := None)
    {
      hullOpen := false;
      status := Success;
    }

    /** The emitter the stroker calls for one element of its output. */
    method Emit(op: StrokeOp) returns (status: Status)
      requires Valid() && Allowed(Now(), op)
      modifies this, base`numVertices, base`numIndices, base`box, base`issued, base.vertices, base.indices, base.device
      ensures Valid() && status == Success
      ensures Now() == StrokeStep(old(Now()), op)
    {
      match op {
        case EmitTriangle(t0, t1, t2) => status := Triangle(t0, t1, t2);
        case EmitQuad(q0, q1, q2, q3) => status := ConvexQuad(q0, q1, q2, q3);
        case OpenHull(f, b) => status := SplineOpen(f, b);
        case ExtendHull(f, b) => status := SplineExtend(f, b);
        case CloseHull => status := SplineClose();
      }
    }

    /** The stroker's calls, in order. */
    method EmitAll(ops: seq<StrokeOp>)
      requires Valid() && Protocol(Now(), ops)
      modifies this, base`numVertices, base`numIndices, base`box, base`issued, base.vertices, base.indices, base.device
      ensures Valid() && Now() == StrokeRun(old(Now()), ops)
    {
      var i := 0;
      while i < |ops|
        invariant 0 <= i <= |ops| && Valid()
        invariant Protocol(Now(), ops[i..]) && StrokeRun(Now(), ops[i..]) == StrokeRun(old(Now()), ops)
        decreases |ops| - i
      {
        assert ops[i..][1..] == ops[i + 1..];
        var _ := Emit(ops[i]);
        i := i + 1;
      }
    }
  }

  /** Where a stroke run starts: what the device has drawn, the initial box, no hull. */
  function StrokeStart(drawn: seq<VertexData>): StrokeState
  {
    StrokeState(drawn, InitialBox, None, Batch(0, 0))
  }

  /**
   * The stroke pass: a mesh without texture coordinates, the stroker's
   * calls, and its status; on success a flush and the box handed out.
   * The mesh is finalised either way.
   */
  method RenderStrokePath(device: Device, ops: seq<StrokeOp>, strokerStatus: Status)
      returns (status: Status, box: Option<BoundBox>)
    requires Protocol(StrokeStart(StreamOf(device.submissions)), ops)
    modifies device
    ensures status == strokerStatus && (status == Success <==> box.Some?)
    ensures var t := StrokeRun(StrokeStart(old(StreamOf(device.submissions))), ops);
            status == Success ==> StreamOf(device.submissions) == t.drawn && box == Some(t.box)
  {
    var vertices := new VertexPos[MaxVertices](_ => VertexPos(0.0, 0.0, 0.0));
    var indices := new VertexIndex[MaxIndices](_ => 0);
    var mesh := new StrokePathMesh(device, vertices, indices);
    mesh.EmitAll(ops);
    status := strokerStatus;
    if status != Success {
      mesh.base.Fini();
      return status, None;
    }
    var b := Flush(mesh.base);
    box := Some(b);
    mesh.base.Fini();
  }

  /** The flush at the end of the stroke pass; the box is what the run drew. */
  method Flush(m: Mesh) returns (box: BoundBox)
    requires m.Wf() && m.numIndices % 3 == 0
    modifies m`numVertices, m`numIndices, m.device
    ensures StreamOf(m.device.submissions) == old(m.Stream())
    ensures box == old(m.box)
  {
    m.Render();
    assert m.Pending() == [] by { assert m.indices[..m.numIndices] == []; }
    box := m.box;
  }

  /** The stroke mask pass: draw where the stencil is zero and mark it, then the stroke pass. */
  method PrepareStrokeStencilMask(device: Device, ops: seq<StrokeOp>, strokerStatus: Status)
      returns (stencil: StencilParams, status: Status, box: Option<BoundBox>)
    requires Protocol(StrokeStart(StreamOf(device.submissions)), ops)
    modifies device
    ensures stencil == StrokeStencil && status == strokerStatus && (status == Success <==> box.Some?)
    ensures var t := StrokeRun(StrokeStart(old(StreamOf(device.submissions))), ops);
            status == Success ==> StreamOf(device.submissions) == t.drawn && box == Some(t.box)
  {
    stencil := StrokeStencil;
    status, box := RenderStrokePath(device, ops, strokerStatus);
  }
}
