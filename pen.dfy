/**
 * Stroking a spline with a pen: how many vertices the pen needs, the
 * slopes of its edges, and the walk that convolves each segment of the
 * decomposed spline with the pen, feeding hull points to the stroke mesh's
 * open / extend / close protocol.
 *
 * `Walk` is the specification of one convolution: the passes of its loop,
 * the extensions it asks of the mesh and the state it leaves. The class
 * `PenStroker` is the imperative stroker, proved to do what `Walk` says.
 */
module Pen {
  import opened Config
  import opened GralTypes
  import opened Stroke

  /** A direction, as the difference of two fixed-point points. */
  datatype Slope = Slope(dx: int, dy: int)

  /** The slope from a to b, as cairo's slope initialisation computes it. */
  function SlopeBetween(a: Point, b: Point): Slope
  {
    Slope(b.x - a.x, b.y - a.y)
  }

  function Negate(s: Slope): Slope
  {
    Slope(-s.dx, -s.dy)
  }

  /** A pen vertex: its offset from the pen's centre and the slopes of the edges into and out of it. */
  datatype PenVertex = PenVertex(point: Point, slopeCw: Slope, slopeCcw: Slope)

  // ---------------------------------------------------------------------
  // The number of pen vertices
  // ---------------------------------------------------------------------

  /**
   * The pen's vertex count for a tolerance and the major axis of the
   * transformed pen. `estimate` is ceil(pi / acos(1 - tolerance / major)),
   * which only matters when the tolerance is below the major axis: it is
   * rounded up to an even number and raised to at least 4. (The source's
   * `%` truncates, but `estimate % 2 != 0` picks the odd numbers either way.)
   */
  function VerticesNeeded(tolerance: real, majorAxis: real, estimate: int): (n: int)
    ensures n >= 4 && n % 2 == 0
    ensures tolerance >= majorAxis ==> n == 4
    ensures tolerance < majorAxis ==> estimate <= n && (n == 4 || n <= estimate + 1)
  {
    if tolerance >= majorAxis then 4
    else
      var even := if estimate % 2 != 0 then estimate + 1 else estimate;
      if even < 4 then 4 else even
  }

  /** Below the major axis the count is the least even number of at least 4 that reaches the estimate. */
  lemma VerticesNeededIsLeast(tolerance: real, majorAxis: real, estimate: int, m: int)
    requires tolerance < majorAxis && m >= 4 && m % 2 == 0 && m >= estimate
    ensures VerticesNeeded(tolerance, majorAxis, estimate) <= m
  {
  }

  // ---------------------------------------------------------------------
  // The slopes of the pen's edges
  // ---------------------------------------------------------------------

  /** Vertex i with the slopes from its predecessor to it and from it to its successor, cyclically. */
  function WithSlopes(vs: seq<PenVertex>, i: int): (v: PenVertex)
    requires 0 <= i < |vs|
    ensures v.point == vs[i].point
  {
    var prev := if i == 0 then |vs| - 1 else i - 1;
    var next := if i == |vs| - 1 then 0 else i + 1;
    vs[i].(slopeCw := SlopeBetween(vs[prev].point, vs[i].point),
           slopeCcw := SlopeBetween(vs[i].point, vs[next].point))
  }

  /** Every vertex carries the slopes of the two edges at it. */
  ghost predicate SlopesOf(ws: seq<PenVertex>, vs: seq<PenVertex>)
  {
    |ws| == |vs| && forall i :: 0 <= i < |vs| ==> ws[i] == WithSlopes(vs, i)
  }

  /** Computes, in place, the slopes of every vertex from the points of its neighbours. */
  method ComputeSlopes(vertices: array<PenVertex>)
    modifies vertices
    ensures SlopesOf(vertices[..], old(vertices[..]))
  {
    var n := vertices.Length;
    ghost var vs := vertices[..];
    var i, iPrev := 0, n - 1;
    while i < n
      invariant 0 <= i <= n && iPrev == (if i == 0 then n - 1 else i - 1)
      invariant forall j :: 0 <= j < i ==> vertices[j] == WithSlopes(vs, j)
      invariant forall j :: i <= j < n ==> vertices[j] == vs[j]
    {
      var prev, v, next := vertices[iPrev], vertices[i], vertices[(i + 1) % n];
      NextIndex(i, n);
      assert v == vs[i];
      assert prev.point == vs[iPrev].point by {
        if i > 0 {
          assert prev == WithSlopes(vs, iPrev);
        }
      }
      assert next.point == vs[(i + 1) % n].point by {
        if 0 < i == n - 1 {
          assert next == WithSlopes(vs, 0);
        }
      }
      vertices[i] := v.(slopeCw := SlopeBetween(prev.point, v.point), slopeCcw := SlopeBetween(v.point, next.point));
      assert vertices[i] == WithSlopes(vs, i);
      iPrev, i := i, i + 1;
    }
    assert vertices[..] == seq(n, j requires 0 <= j < n => WithSlopes(vs, j));
  }

  /** The successor of index i on a cycle of n, without the remainder. */
  lemma NextIndex(i: int, n: int)
    requires 0 <= i < n
    ensures (i + 1) % n == if i == n - 1 then 0 else i + 1
  {
    if i == n - 1 {
      assert (i + 1) % n == 0;
    } else {
      assert (i + 1) % n == i + 1;
    }
  }

  /**
   * The edge out of a vertex is the edge into its successor, so the pen's
   * edge slopes go round the pen, and each runs between the two vertices'
   * points.
   */
  lemma SlopesChain(ws: seq<PenVertex>, vs: seq<PenVertex>, i: int)
    requires SlopesOf(ws, vs) && 0 <= i < |ws|
    ensures ws[(i + 1) % |ws|].slopeCw == ws[i].slopeCcw
    ensures ws[i].slopeCcw == SlopeBetween(ws[i].point, ws[(i + 1) % |ws|].point)
  {
    var n := |ws|;
    var j := (i + 1) % n;
    if i == n - 1 {
      assert j == 0;
    } else {
      assert j == i + 1;
    }
    assert ws[j] == WithSlopes(vs, j);
    assert ws[i] == WithSlopes(vs, i);
  }

  // ---------------------------------------------------------------------
  // The convolution walk
  // ---------------------------------------------------------------------

  /** What the walk tracks: the active pen vertices, the hull points, and which sides still extend. */
  datatype WalkState = WalkState(forwardVertex: int, backwardVertex: int,
                                 forwardHull: Point, backwardHull: Point,
                                 extendForward: bool, extendBackward: bool)

  predicate InPen(pen: seq<PenVertex>, s: WalkState)
  {
    0 <= s.forwardVertex < |pen| && 0 <= s.backwardVertex < |pen|
  }

  /** The pen vertex v placed at the spline's current point. */
  function HullPoint(last: Point, pen: seq<PenVertex>, v: int): Point
    requires 0 <= v < |pen|
  {
    Point(last.x + pen[v].point.x, last.y + pen[v].point.y)
  }

  /**
   * Whether a side turns: its slope is strictly past the vertex's
   * counter-clockwise slope, or strictly before its clockwise slope.
   */
  predicate Turns(pen: seq<PenVertex>, v: int, slope: Slope, compare: (Slope, Slope) -> int)
    requires 0 <= v < |pen|
  {
    compare(slope, pen[v].slopeCcw) > 0 || compare(slope, pen[v].slopeCw) < 0
  }

  /**
   * The vertex after one side's turn: past the counter-clockwise slope the
   * next vertex, before the clockwise slope the previous one, cyclically;
   * otherwise the side stays where it is.
   */
  function Turn(pen: seq<PenVertex>, v: int, slope: Slope, compare: (Slope, Slope) -> int): (r: int)
    requires 0 <= v < |pen|
    ensures 0 <= r < |pen|
    ensures !Turns(pen, v, slope, compare) ==> r == v
  {
    if compare(slope, pen[v].slopeCcw) > 0 then (if v + 1 == |pen| then 0 else v + 1)
    else if compare(slope, pen[v].slopeCw) < 0 then (if v - 1 == -1 then |pen| - 1 else v - 1)
    else v
  }

  /** A turning side moves to the next vertex or the previous one, round the pen. */
  lemma TurnIsCyclic(pen: seq<PenVertex>, v: int, slope: Slope, compare: (Slope, Slope) -> int)
    requires 0 <= v < |pen|
    ensures compare(slope, pen[v].slopeCcw) > 0 ==> Turn(pen, v, slope, compare) == (v + 1) % |pen|
    ensures compare(slope, pen[v].slopeCcw) <= 0 && compare(slope, pen[v].slopeCw) < 0
            ==> Turn(pen, v, slope, compare) == (v - 1) % |pen|
  {
    var n := |pen|;
    if v + 1 == n {
      assert (v + 1) % n == 0;
    } else {
      assert (v + 1) % n == v + 1;
    }
    if v == 0 {
      assert (v - 1) % n == n - 1;
    } else {
      assert (v - 1) % n == v - 1;
    }
  }

  /**
   * One pass of the walk's loop: the hull points of the sides that still
   * extend are refreshed, and each such side turns, the backward side
   * against the negated slope. The new state's hull points are the points
   * the pass extends the mesh's hull by.
   */
  function Iterate(pen: seq<PenVertex>, last: Point, slope: Slope, compare: (Slope, Slope) -> int,
                   s: WalkState): (t: WalkState)
    requires InPen(pen, s)
    ensures InPen(pen, t)
  {
    WalkState(if s.extendForward then Turn(pen, s.forwardVertex, slope, compare) else s.forwardVertex,
              if s.extendBackward then Turn(pen, s.backwardVertex, Negate(slope), compare) else s.backwardVertex,
              if s.extendForward then HullPoint(last, pen, s.forwardVertex) else s.forwardHull,
              if s.extendBackward then HullPoint(last, pen, s.backwardVertex) else s.backwardHull,
              s.extendForward && Turns(pen, s.forwardVertex, slope, compare),
              s.extendBackward && Turns(pen, s.backwardVertex, Negate(slope), compare))
  }

  /** A finished walk: its final state and the forward and backward points of its extensions, in order. */
  datatype Walked = Walked(final: WalkState, forwards: seq<Point>, backwards: seq<Point>)

  /** Earlier extensions in front of a walk's. */
  function Prepend(fs: seq<Point>, bs: seq<Point>, r: Option<Walked>): Option<Walked>
  {
    match r
    case None => None
    case Some(w) => Some(Walked(w.final, fs + w.forwards, bs + w.backwards))
  }

  /**
   * The walk for one slope from state s: passes of the loop until neither
   * side extends, at least one. `None` when it has not stopped within
   * `fuel` passes.
   */
  function Walk(pen: seq<PenVertex>, last: Point, slope: Slope, compare: (Slope, Slope) -> int,
                s: WalkState, fuel: nat): (r: Option<Walked>)
    requires InPen(pen, s)
    ensures r.Some? ==> InPen(pen, r.value.final)
    ensures r.Some? ==> !r.value.final.extendForward && !r.value.final.extendBackward
    ensures r.Some? ==> |r.value.forwards| == |r.value.backwards| >= 1
    decreases fuel
  {
    if fuel == 0 then None
    else
      var t := Iterate(pen, last, slope, compare, s);
      if !t.extendForward && !t.extendBackward then Some(Walked(t, [t.forwardHull], [t.backwardHull]))
      else Prepend([t.forwardHull], [t.backwardHull], Walk(pen, last, slope, compare, t, fuel - 1))
  }

  /**
   * A side that has stopped stays stopped: its vertex does not move and
   * every extension repeats its hull point.
   */
  lemma {:induction false} StoppedSideStays(pen: seq<PenVertex>, last: Point, slope: Slope,
                                            compare: (Slope, Slope) -> int, s: WalkState, fuel: nat)
    requires InPen(pen, s) && Walk(pen, last, slope, compare, s, fuel).Some?
    ensures var w := Walk(pen, last, slope, compare, s, fuel).value;
            !s.extendForward ==>
              w.final.forwardVertex == s.forwardVertex && w.final.forwardHull == s.forwardHull
              && forall i :: 0 <= i < |w.forwards| ==> w.forwards[i] == s.forwardHull
    ensures var w := Walk(pen, last, slope, compare, s, fuel).value;
            !s.extendBackward ==>
              w.final.backwardVertex == s.backwardVertex && w.final.backwardHull == s.backwardHull
              && forall i :: 0 <= i < |w.backwards| ==> w.backwards[i] == s.backwardHull
    decreases fuel
  {
    var t := Iterate(pen, last, slope, compare, s);
    if t.extendForward || t.extendBackward {
      StoppedSideStays(pen, last, slope, compare, t, fuel - 1);
    }
  }

  /** The state with the roles of the two sides exchanged. */
  function Swap(s: WalkState): WalkState
  {
    WalkState(s.backwardVertex, s.forwardVertex, s.backwardHull, s.forwardHull, s.extendBackward, s.extendForward)
  }

  /**
   * The two sides are the same walk for opposite slopes: exchanging them
   * and negating the slope gives the walk with its sides exchanged.
   */
  lemma {:induction false} WalkSidesMirror(pen: seq<PenVertex>, last: Point, slope: Slope,
                                           compare: (Slope, Slope) -> int, s: WalkState, fuel: nat)
    requires InPen(pen, s)
    ensures var r, m := Walk(pen, last, slope, compare, s, fuel), Walk(pen, last, Negate(slope), compare, Swap(s), fuel);
            (r.Some? <==> m.Some?)
            && (r.Some? ==> m.value == Walked(Swap(r.value.final), r.value.backwards, r.value.forwards))
    decreases fuel
  {
    if fuel > 0 {
      assert Negate(Negate(slope)) == slope;
      var t := Iterate(pen, last, slope, compare, s);
      assert Iterate(pen, last, Negate(slope), compare, Swap(s)) == Swap(t);
      if t.extendForward || t.extendBackward {
        WalkSidesMirror(pen, last, slope, compare, t, fuel - 1);
      }
    }
  }

  /**
   * The walks of a decomposed spline: one for the slope to each point the
   * decomposition delivers, starting where the previous one stopped, then
   * one for the spline's final slope at its last point.
   */
  function SplineWalks(pen: seq<PenVertex>, last: Point, points: seq<Point>, finalSlope: Slope,
                       compare: (Slope, Slope) -> int, s: WalkState, fuel: nat): (r: Option<Walked>)
    requires InPen(pen, s)
    ensures r.Some? ==> InPen(pen, r.value.final) && |r.value.forwards| == |r.value.backwards|
    decreases |points|
  {
    var start := s.(extendForward := true, extendBackward := true);
    if points == [] then Walk(pen, last, finalSlope, compare, start, fuel)
    else
      match Walk(pen, last, SlopeBetween(last, points[0]), compare, start, fuel)
      case None => None
      case Some(w) => Prepend(w.forwards, w.backwards,
                              SplineWalks(pen, points[0], points[1..], finalSlope, compare, w.final, fuel))
  }

  lemma PrependAssociates(fs1: seq<Point>, bs1: seq<Point>, fs2: seq<Point>, bs2: seq<Point>, r: Option<Walked>)
    ensures Prepend(fs1, bs1, Prepend(fs2, bs2, r)) == Prepend(fs1 + fs2, bs1 + bs2, r)
  {
    if r.Some? {
      assert fs1 + (fs2 + r.value.forwards) == (fs1 + fs2) + r.value.forwards;
      assert bs1 + (bs2 + r.value.backwards) == (bs1 + bs2) + r.value.backwards;
    }
  }

  /** The mesh's state and the walk's state once a convolution has stopped. */
  datatype Convolved = Convolved(mesh: StrokeState, final: WalkState)

  /**
   * A convolution from the mesh's state `st` and the walk's state `s`:
   * each pass extends the hull by the pass's hull points, until neither
   * side turns. `None` when it has not stopped within `fuel` passes, or
   * when an extension finds no free vertex slot, where the mesh asserts.
   */
  function Convolution(pen: seq<PenVertex>, last: Point, slope: Slope, compare: (Slope, Slope) -> int,
                       st: StrokeState, s: WalkState, fuel: nat): (r: Option<Convolved>)
    requires InPen(pen, s) && st.hull.Some?
    ensures r.Some? ==> r.value.mesh.hull.Some? && InPen(pen, r.value.final)
    ensures r.Some? ==> !r.value.final.extendForward && !r.value.final.extendBackward
    decreases fuel
  {
    if fuel == 0 then None
    else
      var t := Iterate(pen, last, slope, compare, s);
      var st' := ExtendStep(st, t.forwardHull, t.backwardHull);
      ExtensionsCompareWithOpening(st, [t.forwardHull], [t.backwardHull]);
      assert ExtendAll(st, [t.forwardHull], [t.backwardHull]) == ExtendAll(st', [], []);
      if !ExtendFits(st, t.forwardHull, t.backwardHull) then None
      else if !t.extendForward && !t.extendBackward then Some(Convolved(st', t))
      else Convolution(pen, last, slope, compare, st', t, fuel - 1)
  }

  /** One pass of a convolution that has not run out of fuel: the hull extended by the pass's points, then the rest. */
  lemma ConvolutionUnfolds(pen: seq<PenVertex>, last: Point, slope: Slope, compare: (Slope, Slope) -> int,
                           st: StrokeState, s: WalkState, fuel: nat)
    requires InPen(pen, s) && st.hull.Some? && Convolution(pen, last, slope, compare, st, s, fuel).Some?
    ensures var t := Iterate(pen, last, slope, compare, s);
            var st' := ExtendStep(st, t.forwardHull, t.backwardHull);
            && fuel > 0 && st'.hull.Some? && ExtendFits(st, t.forwardHull, t.backwardHull)
            && Convolution(pen, last, slope, compare, st, s, fuel)
               == if t.extendForward || t.extendBackward then Convolution(pen, last, slope, compare, st', t, fuel - 1)
                  else Some(Convolved(st', t))
  {
  }

  /**
   * A convolution is the walk, with the hull extended by the walk's
   * points, as long as every extension finds its vertex room.
   */
  lemma {:induction false} ConvolutionIsWalk(pen: seq<PenVertex>, last: Point, slope: Slope, compare: (Slope, Slope) -> int,
                                             st: StrokeState, s: WalkState, fuel: nat)
    requires InPen(pen, s) && st.hull.Some?
    ensures var w := Walk(pen, last, slope, compare, s, fuel);
            Convolution(pen, last, slope, compare, st, s, fuel)
            == if w.None? || !ExtendsFit(st, w.value.forwards, w.value.backwards) then None
               else Some(Convolved(ExtendAll(st, w.value.forwards, w.value.backwards), w.value.final))
    decreases fuel
  {
    if fuel > 0 {
      var t := Iterate(pen, last, slope, compare, s);
      var st' := ExtendStep(st, t.forwardHull, t.backwardHull);
      assert ExtendAll(st, [t.forwardHull], [t.backwardHull]) == ExtendAll(st', [], []);
      ExtensionsCompareWithOpening(st, [t.forwardHull], [t.backwardHull]);
      assert ExtendsFit(st, [t.forwardHull], [t.backwardHull]) == ExtendFits(st, t.forwardHull, t.backwardHull);
      if t.extendForward || t.extendBackward {
        ConvolutionIsWalk(pen, last, slope, compare, st', t, fuel - 1);
        var w := Walk(pen, last, slope, compare, t, fuel - 1);
        assert Walk(pen, last, slope, compare, s, fuel) == Prepend([t.forwardHull], [t.backwardHull], w);
        if w.Some? {
          ExtendAllAppend(st, [t.forwardHull], [t.backwardHull], w.value.forwards, w.value.backwards);
          ExtendsFitAppend(st, [t.forwardHull], [t.backwardHull], w.value.forwards, w.value.backwards);
        }
      }
    }
  }

  /**
   * The convolutions of a decomposed spline, as `SplineWalks` takes the
   * walks: one per point, each from where the previous one stopped, then
   * one for the final slope.
   */
  function SplineConvolution(pen: seq<PenVertex>, last: Point, points: seq<Point>, finalSlope: Slope,
                             compare: (Slope, Slope) -> int, st: StrokeState, s: WalkState, fuel: nat): (r: Option<Convolved>)
    requires InPen(pen, s) && st.hull.Some?
    ensures r.Some? ==> r.value.mesh.hull.Some? && InPen(pen, r.value.final)
    decreases |points|
  {
    var start := s.(extendForward := true, extendBackward := true);
    if points == [] then Convolution(pen, last, finalSlope, compare, st, start, fuel)
    else
      match Convolution(pen, last, SlopeBetween(last, points[0]), compare, st, start, fuel)
      case None => None
      case Some(c) => SplineConvolution(pen, points[0], points[1..], finalSlope, compare, c.mesh, c.final, fuel)
  }

  /**
   * The spline's convolutions are its walks, with the hull extended by all
   * their points in order, as long as every extension finds its vertex room.
   */
  lemma {:induction false} SplineConvolutionIsWalks(pen: seq<PenVertex>, last: Point, points: seq<Point>, finalSlope: Slope,
                                                    compare: (Slope, Slope) -> int, st: StrokeState, s: WalkState, fuel: nat)
    requires InPen(pen, s) && st.hull.Some?
    ensures var w := SplineWalks(pen, last, points, finalSlope, compare, s, fuel);
            SplineConvolution(pen, last, points, finalSlope, compare, st, s, fuel)
            == if w.None? || !ExtendsFit(st, w.value.forwards, w.value.backwards) then None
               else Some(Convolved(ExtendAll(st, w.value.forwards, w.value.backwards), w.value.final))
    decreases |points|
  {
    var start := s.(extendForward := true, extendBackward := true);
    if points == [] {
      ConvolutionIsWalk(pen, last, finalSlope, compare, st, start, fuel);
    } else {
      var slope := SlopeBetween(last, points[0]);
      ConvolutionIsWalk(pen, last, slope, compare, st, start, fuel);
      var w := Walk(pen, last, slope, compare, start, fuel);
      if w.Some? {
        var st' := ExtendAll(st, w.value.forwards, w.value.backwards);
        ExtensionsCompareWithOpening(st, w.value.forwards, w.value.backwards);
        SplineConvolutionIsWalks(pen, points[0], points[1..], finalSlope, compare, st', w.value.final, fuel);
        var rest := SplineWalks(pen, points[0], points[1..], finalSlope, compare, w.value.final, fuel);
        if rest.Some? {
          ExtendAllAppend(st, w.value.forwards, w.value.backwards, rest.value.forwards, rest.value.backwards);
          ExtendsFitAppend(st, w.value.forwards, w.value.backwards, rest.value.forwards, rest.value.backwards);
        }
      }
    }
  }

  /**
   * A spline whose walks only repeat the opening hull points leaves the
   * hull as it was opened: it has drawn nothing, and the close that
   * follows leaves its two vertices without an index.
   */
  lemma StillSplineLeavesHullUnmoved(pen: seq<PenVertex>, last: Point, points: seq<Point>, finalSlope: Slope,
                                     compare: (Slope, Slope) -> int, st: StrokeState, s: WalkState, fuel: nat)
    requires InPen(pen, s) && st.hull.Some?
    requires var w := SplineWalks(pen, last, points, finalSlope, compare, s, fuel);
             && w.Some?
             && (forall i :: 0 <= i < |w.value.forwards| ==> w.value.forwards[i] == st.hull.value.forwardPoint)
             && (forall i :: 0 <= i < |w.value.backwards| ==> w.value.backwards[i] == st.hull.value.backwardPoint)
    ensures SplineConvolution(pen, last, points, finalSlope, compare, st, s, fuel)
            == Some(Convolved(st, SplineWalks(pen, last, points, finalSlope, compare, s, fuel).value.final))
  {
    var w := SplineWalks(pen, last, points, finalSlope, compare, s, fuel).value;
    SplineConvolutionIsWalks(pen, last, points, finalSlope, compare, st, s, fuel);
    ExtensionsCompareWithOpening(st, w.forwards, w.backwards);
  }

  /**
   * The loop of the convolution, on a copy of the stroker's walk state:
   * one pass and one extension of the mesh's hull at a time, until neither
   * side turns.
   */
  method Convolve(m: StrokePathMesh, pen: seq<PenVertex>, last: Point, slope: Slope,
                  compare: (Slope, Slope) -> int, s: WalkState, ghost fuel: nat) returns (t: WalkState)
    requires m.Valid() && m.hullOpen && InPen(pen, s) && s.extendForward
    requires Convolution(pen, last, slope, compare, m.Now(), s, fuel).Some?
    modifies m, m.base`numVertices, m.base`numIndices, m.base`box, m.base`issued
    modifies m.base.vertices, m.base.indices, m.base.device
    ensures m.Valid() && m.hullOpen
    ensures old(Convolution(pen, last, slope, compare, m.Now(), s, fuel)) == Some(Convolved(m.Now(), t))
  {
    var backwardSlope := Negate(slope);
    t := s;
    ghost var whole := Convolution(pen, last, slope, compare, m.Now(), s, fuel);
    ghost var k := fuel;
    while t.extendForward || t.extendBackward
      invariant m.Valid() && m.hullOpen && InPen(pen, t)
      invariant whole == if t.extendForward || t.extendBackward then Convolution(pen, last, slope, compare, m.Now(), t, k)
                         else Some(Convolved(m.Now(), t))
      decreases k
    {
      t, k := ConvolveStep(m, pen, last, slope, backwardSlope, compare, t, whole, k);
    }
  }

  /**
   * One pass of the convolution's loop: the hull points of the sides that
   * still extend are refreshed, the hull is extended by them, and each
   * such side turns, the backward one against the negated slope.
   */
  method ConvolveStep(m: StrokePathMesh, pen: seq<PenVertex>, last: Point, slope: Slope, backwardSlope: Slope,
                      compare: (Slope, Slope) -> int, cur: WalkState, ghost whole: Option<Convolved>, ghost k: nat)
      returns (next: WalkState, ghost k': nat)
    requires m.Valid() && m.hullOpen && backwardSlope == Negate(slope) && InPen(pen, cur)
    requires whole.Some? && whole == Convolution(pen, last, slope, compare, m.Now(), cur, k)
    modifies m, m.base`numVertices, m.base`numIndices, m.base`box, m.base`issued
    modifies m.base.vertices, m.base.indices, m.base.device
    ensures m.Valid() && m.hullOpen && InPen(pen, next) && k' < k
    ensures whole == if next.extendForward || next.extendBackward then Convolution(pen, last, slope, compare, m.Now(), next, k')
                     else Some(Convolved(m.Now(), next))
  {
    ConvolutionUnfolds(pen, last, slope, compare, m.Now(), cur, k);
    var fh, bh := cur.forwardHull, cur.backwardHull;
    if cur.extendForward {
      fh := HullPoint(last, pen, cur.forwardVertex);
    }
    if cur.extendBackward {
      bh := HullPoint(last, pen, cur.backwardVertex);
    }
    var _ := m.SplineExtend(fh, bh);
    var fv, extendForward := cur.forwardVertex, cur.extendForward;
    if extendForward {
      fv, extendForward := Turn(pen, fv, slope, compare), Turns(pen, fv, slope, compare);
    }
    var bv, extendBackward := cur.backwardVertex, cur.extendBackward;
    if extendBackward {
      bv, extendBackward := Turn(pen, bv, backwardSlope, compare), Turns(pen, bv, backwardSlope, compare);
    }
    next := WalkState(fv, bv, fh, bh, extendForward, extendBackward);
    k' := k - 1;
  }

  // ---------------------------------------------------------------------
  // The stroker
  // ---------------------------------------------------------------------

  /** The pen stroker of one spline: the pen, the spline's end slopes, the mesh, and the walk's state. */
  class PenStroker {
    var pen: seq<PenVertex>
    var initialSlope: Slope
    var finalSlope: Slope
    var mesh: StrokePathMesh?
    var lastPoint: Point
    var forwardHull: Point
    var backwardHull: Point
    var forwardVertex: int
    var backwardVertex: int

    /** The stroker's storage, before `Init`. */
    constructor ()
      ensures mesh == null && pen == []
    {
      pen, mesh := [], null;
      initialSlope, finalSlope := Slope(0, 0), Slope(0, 0);
      lastPoint, forwardHull, backwardHull := Point(0, 0), Point(0, 0), Point(0, 0);
      forwardVertex, backwardVertex := 0, 0;
    }

    /** The walk's state at the start of a convolution: both sides extend. */
    function Start(): WalkState
      reads this
    {
      WalkState(forwardVertex, backwardVertex, forwardHull, backwardHull, true, true)
    }

    /**
     * Sets the stroker up for the spline a, b, c, d. `splineOk` says whether
     * the spline could be set up (it cannot when it is degenerate), with the
     * end slopes it then has; `copyOk` whether the pen could be copied.
     */
    method Init(pen: seq<PenVertex>, a: Point, splineOk: bool, initialSlope: Slope, finalSlope: Slope,
                copyOk: bool, mesh: StrokePathMesh) returns (status: Status)
      modifies this
      ensures !splineOk ==> status == Degenerate
      ensures splineOk && !copyOk ==> status == NoMemory
      ensures splineOk && copyOk ==> status == Success
      ensures status == Success ==>
                && this.pen == pen && this.mesh == mesh && lastPoint == a
                && this.initialSlope == initialSlope && this.finalSlope == finalSlope
    {
      if !splineOk {
        return Degenerate;
      }
      this.initialSlope, this.finalSlope := initialSlope, finalSlope;
      if !copyOk {
        return NoMemory;
      }
      this.pen := pen;
      this.mesh := mesh;
      lastPoint := a;
      status := Success;
    }

    /**
     * Convolves one slope with the pen: extends the mesh's hull until
     * neither side's vertex turns. The walk must stop within `fuel` passes
     * (`ConvolutionIsWalk` gives the hull points it emits).
     */
    method AddConvolvedPoints(slope: Slope, compare: (Slope, Slope) -> int, ghost fuel: nat) returns (status: Status)
      requires mesh != null && mesh.Valid() && mesh.hullOpen && InPen(pen, Start())
      requires Convolution(pen, lastPoint, slope, compare, mesh.Now(), Start(), fuel).Some?
      modifies this, mesh, mesh.base`numVertices, mesh.base`numIndices, mesh.base`box, mesh.base`issued
      modifies mesh.base.vertices, mesh.base.indices, mesh.base.device
      ensures status == Success && mesh == old(mesh) && mesh.Valid() && mesh.hullOpen
      ensures pen == old(pen) && lastPoint == old(lastPoint)
      ensures initialSlope == old(initialSlope) && finalSlope == old(finalSlope)
      ensures old(Convolution(pen, lastPoint, slope, compare, mesh.Now(), Start(), fuel))
              == Some(Convolved(mesh.Now(), Start().(extendForward := false, extendBackward := false)))
    {
      var t := Convolve(mesh, pen, lastPoint, slope, compare, Start(), fuel);
      SetWalk(t);
      status := Success;
    }

    /** The walk's opening: the active vertices of the initial slope and of its negation, and their hull points. */
    method OpenWalk(activeCw: Slope -> int)
      requires InPen(pen, Opening(activeCw))
      modifies this`forwardVertex, this`backwardVertex, this`forwardHull, this`backwardHull
      ensures Start() == Opening(activeCw)
    {
      var slope := initialSlope;
      forwardVertex := activeCw(slope);
      forwardHull := HullPoint(lastPoint, pen, forwardVertex);
      slope := Negate(slope);
      backwardVertex := activeCw(slope);
      backwardHull := HullPoint(lastPoint, pen, backwardVertex);
    }

    method SetWalk(t: WalkState)
      modifies this`forwardVertex, this`backwardVertex, this`forwardHull, this`backwardHull
      ensures Start() == t.(extendForward := true, extendBackward := true)
    {
      forwardVertex, backwardVertex, forwardHull, backwardHull := t.forwardVertex, t.backwardVertex, t.forwardHull, t.backwardHull;
    }

    /** One point of the decomposed spline: the convolution of the slope to it, then it becomes the current point. */
    method AddPoint(point: Point, compare: (Slope, Slope) -> int, ghost fuel: nat) returns (status: Status)
      requires mesh != null && mesh.Valid() && mesh.hullOpen && InPen(pen, Start())
      requires Convolution(pen, lastPoint, SlopeBetween(lastPoint, point), compare, mesh.Now(), Start(), fuel).Some?
      modifies this, mesh, mesh.base`numVertices, mesh.base`numIndices, mesh.base`box, mesh.base`issued
      modifies mesh.base.vertices, mesh.base.indices, mesh.base.device
      ensures status == Success && mesh == old(mesh) && mesh.Valid() && mesh.hullOpen
      ensures pen == old(pen) && lastPoint == point
      ensures initialSlope == old(initialSlope) && finalSlope == old(finalSlope)
      ensures old(Convolution(pen, lastPoint, SlopeBetween(lastPoint, point), compare, mesh.Now(), Start(), fuel))
              == Some(Convolved(mesh.Now(), Start().(extendForward := false, extendBackward := false)))
    {
      var slope := SlopeBetween(lastPoint, point);
      status := AddConvolvedPoints(slope, compare, fuel);
      lastPoint := point;
    }

    /**
     * The convolutions between opening and closing the hull: one per point
     * the decomposition delivers, then the final slope.
     */
    method ConvolvePoints(points: seq<Point>, compare: (Slope, Slope) -> int, ghost fuel: nat) returns (status: Status)
      requires mesh != null && mesh.Valid() && mesh.hullOpen && InPen(pen, Start())
      requires SplineConvolution(pen, lastPoint, points, finalSlope, compare, mesh.Now(), Start(), fuel).Some?
      modifies this, mesh, mesh.base`numVertices, mesh.base`numIndices, mesh.base`box, mesh.base`issued
      modifies mesh.base.vertices, mesh.base.indices, mesh.base.device
      ensures status == Success && mesh == old(mesh) && mesh.Valid() && mesh.hullOpen
      ensures pen == old(pen) && lastPoint == (if points == [] then old(lastPoint) else points[|points| - 1])
      ensures old(SplineConvolution(pen, lastPoint, points, finalSlope, compare, mesh.Now(), Start(), fuel)).value.mesh
              == mesh.Now()
      decreases |points|
    {
      if points == [] {
        status := AddConvolvedPoints(finalSlope, compare, fuel);
      } else {
        status := AddPoint(points[0], compare, fuel);
        var rest := points[1..];
        assert rest != [] ==> rest[|rest| - 1] == points[|points| - 1];
        status := ConvolvePoints(rest, compare, fuel);
      }
    }

    /** The walk's state once the hull is opened at the active vertices of the initial slope and its negation. */
    function Opening(activeCw: Slope -> int): WalkState
      reads this
    {
      WalkState(activeCw(initialSlope), activeCw(Negate(initialSlope)),
                if 0 <= activeCw(initialSlope) < |pen| then HullPoint(lastPoint, pen, activeCw(initialSlope)) else lastPoint,
                if 0 <= activeCw(Negate(initialSlope)) < |pen| then HullPoint(lastPoint, pen, activeCw(Negate(initialSlope))) else lastPoint,
                true, true)
    }

    /**
     * What stroking the spline needs: the active vertices lie in the pen,
     * every walk stops within `fuel` passes, and every vertex the hull adds
     * finds a free slot. The hull may close without having drawn.
     */
    ghost predicate Strokable(points: seq<Point>, activeCw: Slope -> int, compare: (Slope, Slope) -> int, fuel: nat)
      reads this, mesh, mesh.base, mesh.base.device, mesh.base.vertices, mesh.base.indices, mesh.base.texCoords
      requires mesh != null && mesh.Valid()
    {
      |pen| > 1 ==>
        && InPen(pen, Opening(activeCw))
        && mesh.base.numVertices + 2 <= MaxVertices
        && SplineConvolution(pen, lastPoint, points, finalSlope, compare,
                             OpenStep(mesh.Now(), Opening(activeCw).forwardHull, Opening(activeCw).backwardHull),
                             Opening(activeCw), fuel).Some?
    }

    /**
     * Strokes the spline: opens the hull at the active vertices of the
     * spline's initial slope, convolves each point the decomposition
     * delivers and then the final slope, and closes the hull. A pen of at
     * most one vertex strokes nothing.
     */
    method StrokeSpline(points: seq<Point>, activeCw: Slope -> int, compare: (Slope, Slope) -> int, ghost fuel: nat)
        returns (status: Status)
      requires mesh != null && mesh.Valid() && !mesh.hullOpen
      requires Strokable(points, activeCw, compare, fuel)
      modifies this, mesh, mesh.base`numVertices, mesh.base`numIndices, mesh.base`box, mesh.base`issued
      modifies mesh.base.vertices, mesh.base.indices, mesh.base.device
      ensures status == Success && mesh == old(mesh) && mesh.Valid() && !mesh.hullOpen
      ensures |old(pen)| <= 1 ==> mesh.Now() == old(mesh.Now())
      ensures |old(pen)| > 1 ==>
                var o := old(Opening(activeCw));
                var c := old(SplineConvolution(pen, lastPoint, points, finalSlope, compare,
                                               OpenStep(mesh.Now(), o.forwardHull, o.backwardHull), o, fuel)).value;
                && mesh.Now() == c.mesh.(hull := None)
                && lastPoint == (if points == [] then old(lastPoint) else points[|points| - 1])
    {
      if |pen| <= 1 {
        return Success;
      }
      OpenWalk(activeCw);
      status := mesh.SplineOpen(forwardHull, backwardHull);
      status := ConvolvePoints(points, compare, fuel);
      status := mesh.SplineClose();
    }
  }
}
