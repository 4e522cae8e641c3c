/**
 * The mechanics of drawing one cubic into a textured mesh: four vertices
 * at its control points carrying its coefficient rows, and six indices
 * making the triangles (P0, P1, P2) and (P0, P2, P3).
 */
module SplineMeshes {
  import opened Config
  import opened GralTypes
  import opened Gpu
  import opened Meshes
  import opened SplinesBuffers

  /** The four coefficient rows, one per control point. */
  datatype Rows = Rows(m0: TexCoord3, m1: TexCoord3, m2: TexCoord3, m3: TexCoord3)

  /** Concatenation regroups freely. */
  lemma AppendAssoc<T>(a: seq<T>, b: seq<T>, c: seq<T>)
    ensures (a + b) + c == a + (b + c)
  {
  }

  /** The vertex a control point becomes: its position at the mesh depth and its row. */
  function SplineVertex(k: Vector2, m: TexCoord3): VertexData
  {
    VertexData(VertexPos(k.x, k.y, ZValue), Some(m))
  }

  /** The two triangles of a cubic's control polygon with the given rows. */
  function SplineStream(cp: Spline, m: Rows): (r: seq<VertexData>)
  {
    var d0, d1, d2, d3 := SplineVertex(cp.k0, m.m0), SplineVertex(cp.k1, m.m1),
                          SplineVertex(cp.k2, m.m2), SplineVertex(cp.k3, m.m3);
    [d0, d1, d2, d0, d2, d3]
  }

  /**
   * The triangles share the diagonal P0 P2 and their corners are the four
   * control points at the mesh depth, each with its own row.
   */
  lemma SplineStreamIsControlPolygon(cp: Spline, m: Rows)
    ensures var r := SplineStream(cp, m);
            && |r| == 6 && r[3] == r[0] && r[4] == r[2]
            && (forall j :: 0 <= j < 6 ==> r[j].tex.Some? && r[j].pos.z == ZValue)
            && Rows(r[0].tex.value, r[1].tex.value, r[2].tex.value, r[5].tex.value) == m
            && [Vector2(r[0].pos.x, r[0].pos.y), Vector2(r[1].pos.x, r[1].pos.y),
                Vector2(r[2].pos.x, r[2].pos.y), Vector2(r[5].pos.x, r[5].pos.y)] == cp.Knots()
  {
  }

  /** Growing a box by points keeps every point it held. */
  lemma {:induction false} BoxOfGrows(b: BoundBox, pts: seq<Vector2>)
    ensures forall x, y :: b.Contains(x, y) ==> BoxOf(b, pts).Contains(x, y)
  {
    if pts != [] {
      var front := pts[..|pts| - 1];
      BoxOfGrows(b, front);
      GrowBoxKeeps(BoxOf(b, front), pts[|pts| - 1].x, pts[|pts| - 1].y);
    }
  }

  lemma BoxOfSnoc(b: BoundBox, pts: seq<Vector2>, p: Vector2)
    ensures BoxOf(b, pts + [p]) == GrowBox(BoxOf(b, pts), p.x, p.y)
  {
    assert (pts + [p])[..|pts|] == pts;
  }

  lemma BoxOfThree(b: BoundBox, k0: Vector2, k1: Vector2, k2: Vector2)
    ensures BoxOf(b, [k0, k1, k2]) == GrowBox(GrowBox(GrowBox(b, k0.x, k0.y), k1.x, k1.y), k2.x, k2.y)
  {
    BoxOfSnoc(b, [], k0);
    BoxOfSnoc(b, [k0], k1);
    BoxOfSnoc(b, [k0, k1], k2);
    assert [k0] == [] + [k0];
    assert [k0, k1] == [k0] + [k1];
    assert [k0, k1, k2] == [k0, k1] + [k2];
  }

  /**
   * The state of a mesh between cubics: six indices and four vertices per
   * cubic since the last flush, over a texture coordinate array.
   */
  ghost predicate SplineShape(mesh: Mesh)
    reads mesh
  {
    mesh.texCoords != null && mesh.numIndices % 6 == 0 && mesh.numVertices == 4 * (mesh.numIndices / 6)
  }

  /** Between cubics the index count leaves room for six more indices. */
  lemma SixIndicesFit(n: nat)
    requires n % 6 == 0 && n < MaxIndices
    ensures n + 6 <= MaxIndices && 4 * (n / 6) + 4 <= MaxVertices
    ensures (n + 6) / 6 == n / 6 + 1 && (n + 6) % 6 == 0
  {
  }

  /** A whole number of cubics is a whole number of triangles. */
  lemma ShapeAllowsRender(n: nat)
    requires n % 6 == 0
    ensures n < 3 ==> n == 0
    ensures n % 3 == 0
  {
  }

  /**
   * Adds a vertex at a control point with its row and records its index;
   * recording may fill the index array and flush the mesh.
   */
  method EmitNew(mesh: Mesh, k: Vector2, tex: TexCoord3) returns (i: VertexIndex)
    requires mesh.Valid() && mesh.texCoords != null && mesh.numVertices < MaxVertices
    modifies mesh`numVertices, mesh`numIndices, mesh`box, mesh`issued
    modifies mesh.vertices, mesh.texCoords, mesh.indices, mesh.device
    ensures mesh.Valid()
    ensures i == old(mesh.numVertices) && mesh.DataAt(i) == SplineVertex(k, tex)
    ensures forall s :: 0 <= s < i ==> mesh.DataAt(s) == old(mesh.DataAt(s))
    ensures mesh.Stream() == old(mesh.Stream()) + [SplineVertex(k, tex)]
    ensures mesh.box == GrowBox(old(mesh.box), k.x, k.y)
    ensures old(mesh.numIndices) + 1 < MaxIndices ==>
              mesh.numIndices == old(mesh.numIndices) + 1 && mesh.numVertices == i + 1
    ensures old(mesh.numIndices) + 1 == MaxIndices ==> mesh.numIndices == 0 && mesh.numVertices == 0
  {
    i := mesh.AddVertexPosAndTex(k.x, k.y, tex);
    i := mesh.AddIndex(i);
  }

  /** Records the index of a vertex already added since the last flush. */
  method EmitOld(mesh: Mesh, i: VertexIndex)
    requires mesh.Valid() && i < mesh.numVertices && mesh.numIndices + 1 < MaxIndices
    modifies mesh`numVertices, mesh`numIndices, mesh`box, mesh`issued
    modifies mesh.vertices, mesh.texCoords, mesh.indices, mesh.device
    ensures mesh.Valid()
    ensures forall s :: 0 <= s < MaxVertices ==> mesh.DataAt(s) == old(mesh.DataAt(s))
    ensures mesh.Stream() == old(mesh.Stream()) + [old(mesh.DataAt(i))]
    ensures mesh.box == old(mesh.box)
    ensures mesh.numIndices == old(mesh.numIndices) + 1 && mesh.numVertices == old(mesh.numVertices)
  {
    var _ := mesh.AddIndex(i);
  }

  /** Adds two vertices with their rows and records them, with room left for both indices. */
  method EmitPair(mesh: Mesh, k1: Vector2, t1: TexCoord3, k2: Vector2, t2: TexCoord3) returns (i2: VertexIndex)
    requires mesh.Valid() && mesh.texCoords != null
    requires mesh.numVertices + 2 <= MaxVertices && mesh.numIndices + 2 < MaxIndices
    modifies mesh`numVertices, mesh`numIndices, mesh`box, mesh`issued
    modifies mesh.vertices, mesh.texCoords, mesh.indices, mesh.device
    ensures mesh.Valid()
    ensures mesh.numIndices == old(mesh.numIndices) + 2 && mesh.numVertices == old(mesh.numVertices) + 2
    ensures i2 == old(mesh.numVertices) + 1 && mesh.DataAt(i2) == SplineVertex(k2, t2)
    ensures forall s :: 0 <= s < old(mesh.numVertices) ==> mesh.DataAt(s) == old(mesh.DataAt(s))
    ensures mesh.Stream() == old(mesh.Stream()) + [SplineVertex(k1, t1), SplineVertex(k2, t2)]
    ensures mesh.box == GrowBox(GrowBox(old(mesh.box), k1.x, k1.y), k2.x, k2.y)
  {
    ghost var s0 := mesh.Stream();
    var i1 := EmitNew(mesh, k1, t1);
    i2 := EmitNew(mesh, k2, t2);
    AppendAssoc(s0, [SplineVertex(k1, t1)], [SplineVertex(k2, t2)]);
    assert [SplineVertex(k1, t1)] + [SplineVertex(k2, t2)] == [SplineVertex(k1, t1), SplineVertex(k2, t2)];
  }

  /** Adds P0, P1, P2 with their rows and records the triangle they make. */
  method FillFirstTriangle(mesh: Mesh, cp: Spline, m: Rows) returns (i0: VertexIndex, i2: VertexIndex)
    requires mesh.Valid() && SplineShape(mesh)
    modifies mesh`numVertices, mesh`numIndices, mesh`box, mesh`issued
    modifies mesh.vertices, mesh.texCoords, mesh.indices, mesh.device
    ensures mesh.Valid() && mesh.texCoords != null
    ensures mesh.numIndices == old(mesh.numIndices) + 3 && mesh.numVertices == old(mesh.numVertices) + 3
    ensures i0 == old(mesh.numVertices) && i2 == i0 + 2
    ensures mesh.DataAt(i0) == SplineVertex(cp.k0, m.m0) && mesh.DataAt(i2) == SplineVertex(cp.k2, m.m2)
    ensures mesh.Stream() == old(mesh.Stream()) + [SplineVertex(cp.k0, m.m0), SplineVertex(cp.k1, m.m1), SplineVertex(cp.k2, m.m2)]
    ensures mesh.box == BoxOf(old(mesh.box), [cp.k0, cp.k1, cp.k2])
  {
    SixIndicesFit(mesh.numIndices);
    ghost var b := mesh.box;
    ghost var s0 := mesh.Stream();
    i0 := EmitNew(mesh, cp.k0, m.m0);
    i2 := EmitPair(mesh, cp.k1, m.m1, cp.k2, m.m2);
    BoxOfThree(b, cp.k0, cp.k1, cp.k2);
    AppendAssoc(s0, [SplineVertex(cp.k0, m.m0)], [SplineVertex(cp.k1, m.m1), SplineVertex(cp.k2, m.m2)]);
    assert [SplineVertex(cp.k0, m.m0)] + [SplineVertex(cp.k1, m.m1), SplineVertex(cp.k2, m.m2)]
        == [SplineVertex(cp.k0, m.m0), SplineVertex(cp.k1, m.m1), SplineVertex(cp.k2, m.m2)];
  }

  /** Records P0 and P2 again, then adds P3 with its row and records it. */
  method FillSecondTriangle(mesh: Mesh, i0: VertexIndex, i2: VertexIndex, k3: Vector2, m3: TexCoord3)
    requires mesh.Valid() && mesh.texCoords != null
    requires i0 < mesh.numVertices && i2 < mesh.numVertices < MaxVertices && mesh.numIndices + 3 <= MaxIndices
    modifies mesh`numVertices, mesh`numIndices, mesh`box, mesh`issued
    modifies mesh.vertices, mesh.texCoords, mesh.indices, mesh.device
    ensures mesh.Valid()
    ensures mesh.Stream() == old(mesh.Stream()) + [old(mesh.DataAt(i0)), old(mesh.DataAt(i2)), SplineVertex(k3, m3)]
    ensures mesh.box == GrowBox(old(mesh.box), k3.x, k3.y)
    ensures old(mesh.numIndices) + 3 < MaxIndices ==>
              mesh.numIndices == old(mesh.numIndices) + 3 && mesh.numVertices == old(mesh.numVertices) + 1
    ensures old(mesh.numIndices) + 3 == MaxIndices ==> mesh.numIndices == 0 && mesh.numVertices == 0
  {
    ghost var s0 := mesh.Stream();
    ghost var d0, d2 := mesh.DataAt(i0), mesh.DataAt(i2);
    EmitOld(mesh, i0);
    EmitOld(mesh, i2);
    var i3 := EmitNew(mesh, k3, m3);
    AppendAssoc(s0, [d0], [d2]);
    AppendAssoc(s0, [d0] + [d2], [SplineVertex(k3, m3)]);
    assert [d0] + [d2] + [SplineVertex(k3, m3)] == [d0, d2, SplineVertex(k3, m3)];
  }

  /**
   * Draws one cubic with the given rows: each control point is added as a
   * vertex just before its first use, and the indices 0 1 2 0 2 3 are
   * recorded. Only the last index can fill the index array.
   */
  method FillSplineWith(mesh: Mesh, cp: Spline, m: Rows)
    requires mesh.Valid() && SplineShape(mesh)
    modifies mesh`numVertices, mesh`numIndices, mesh`box, mesh`issued
    modifies mesh.vertices, mesh.texCoords, mesh.indices, mesh.device
    ensures mesh.Valid() && SplineShape(mesh)
    ensures mesh.Stream() == old(mesh.Stream()) + SplineStream(cp, m)
    ensures mesh.box == BoxOf(old(mesh.box), cp.Knots())
  {
    SixIndicesFit(mesh.numIndices);
    ghost var s0 := mesh.Stream();
    ghost var b := mesh.box;
    var i0, i2 := FillFirstTriangle(mesh, cp, m);
    FillSecondTriangle(mesh, i0, i2, cp.k3, m.m3);
    BoxOfSnoc(b, [cp.k0, cp.k1, cp.k2], cp.k3);
    assert [cp.k0, cp.k1, cp.k2] + [cp.k3] == cp.Knots();
    ghost var first := [SplineVertex(cp.k0, m.m0), SplineVertex(cp.k1, m.m1), SplineVertex(cp.k2, m.m2)];
    ghost var second := [SplineVertex(cp.k0, m.m0), SplineVertex(cp.k2, m.m2), SplineVertex(cp.k3, m.m3)];
    AppendAssoc(s0, first, second);
    assert first + second == SplineStream(cp, m);
  }

  // ---------------------------------------------------------------------
  // Drawing a sequence of cubics, each with the rows `rowsOf` gives it
  // ---------------------------------------------------------------------

  /** What drawing one cubic submits: nothing when it has no rows (a line). */
  function Drawing(cp: Spline, rowsOf: Spline -> Option<Rows>): seq<VertexData>
  {
    match rowsOf(cp)
    case None => []
    case Some(m) => SplineStream(cp, m)
  }

  /** The box after drawing one cubic: its four knots, in order, unless it is not drawn. */
  function DrawingBox(b: BoundBox, cp: Spline, rowsOf: Spline -> Option<Rows>): BoundBox
  {
    if rowsOf(cp).None? then b else BoxOf(b, cp.Knots())
  }

  /** What drawing a sequence of cubics submits, in order. */
  function SplinesStream(ss: seq<Spline>, rowsOf: Spline -> Option<Rows>): seq<VertexData>
  {
    if ss == [] then [] else SplinesStream(ss[..|ss| - 1], rowsOf) + Drawing(ss[|ss| - 1], rowsOf)
  }

  /** The box after drawing a sequence of cubics. */
  function SplinesBox(b: BoundBox, ss: seq<Spline>, rowsOf: Spline -> Option<Rows>): BoundBox
  {
    if ss == [] then b else DrawingBox(SplinesBox(b, ss[..|ss| - 1], rowsOf), ss[|ss| - 1], rowsOf)
  }

  /** The box after drawing keeps every point the starting box held and every knot of a drawn cubic. */
  lemma {:induction false} SplinesBoxContains(b: BoundBox, ss: seq<Spline>, rowsOf: Spline -> Option<Rows>)
    ensures forall x, y :: b.Contains(x, y) ==> SplinesBox(b, ss, rowsOf).Contains(x, y)
    ensures forall i, k :: 0 <= i < |ss| && rowsOf(ss[i]).Some? && 0 <= k < 4 ==>
              SplinesBox(b, ss, rowsOf).Contains(ss[i].Knots()[k].x, ss[i].Knots()[k].y)
  {
    if ss != [] {
      var front := ss[..|ss| - 1];
      var last := ss[|ss| - 1];
      SplinesBoxContains(b, front, rowsOf);
      var fb := SplinesBox(b, front, rowsOf);
      BoxOfContainsAll(fb, last.Knots());
      BoxOfGrows(fb, last.Knots());
      forall i, k | 0 <= i < |ss| && rowsOf(ss[i]).Some? && 0 <= k < 4
        ensures SplinesBox(b, ss, rowsOf).Contains(ss[i].Knots()[k].x, ss[i].Knots()[k].y)
      {
        if i < |front| {
          assert ss[i] == front[i];
        }
      }
    }
  }

  /** Drawing two sequences of cubics one after the other draws their concatenation. */
  lemma {:induction false} SplinesStreamAppend(xs: seq<Spline>, ys: seq<Spline>, rowsOf: Spline -> Option<Rows>)
    ensures SplinesStream(xs + ys, rowsOf) == SplinesStream(xs, rowsOf) + SplinesStream(ys, rowsOf)
    decreases |ys|
  {
    if ys == [] {
      assert xs + ys == xs;
    } else {
      var front, last := ys[..|ys| - 1], ys[|ys| - 1];
      var all := xs + ys;
      assert all[..|all| - 1] == xs + front && all[|all| - 1] == last;
      SplinesStreamAppend(xs, front, rowsOf);
      assert SplinesStream(all, rowsOf) == SplinesStream(xs + front, rowsOf) + Drawing(last, rowsOf);
      AppendAssoc(SplinesStream(xs, rowsOf), SplinesStream(front, rowsOf), Drawing(last, rowsOf));
    }
  }

  /** The box after two sequences is the box after the second, starting from the box after the first. */
  lemma {:induction false} SplinesBoxAppend(b: BoundBox, xs: seq<Spline>, ys: seq<Spline>, rowsOf: Spline -> Option<Rows>)
    ensures SplinesBox(b, xs + ys, rowsOf) == SplinesBox(SplinesBox(b, xs, rowsOf), ys, rowsOf)
    decreases |ys|
  {
    if ys == [] {
      assert xs + ys == xs;
    } else {
      var front, last := ys[..|ys| - 1], ys[|ys| - 1];
      var all := xs + ys;
      assert all[..|all| - 1] == xs + front && all[|all| - 1] == last;
      SplinesBoxAppend(b, xs, front, rowsOf);
      assert SplinesBox(b, all, rowsOf) == DrawingBox(SplinesBox(b, xs + front, rowsOf), last, rowsOf);
    }
  }

  lemma {:induction false} FlattenStep(chunks: seq<Chunk>, c: nat)
    requires c < |chunks|
    ensures Flatten(chunks[..c + 1]) == Flatten(chunks[..c]) + chunks[c].splines
  {
    assert chunks[..c + 1][..c] == chunks[..c];
  }

  /** One more cubic: the drawing and box of a prefix extended by the next cubic. */
  lemma SplinesSnoc(b: BoundBox, ss: seq<Spline>, i: nat, rowsOf: Spline -> Option<Rows>)
    requires i < |ss|
    ensures SplinesStream(ss[..i + 1], rowsOf) == SplinesStream(ss[..i], rowsOf) + Drawing(ss[i], rowsOf)
    ensures SplinesBox(b, ss[..i + 1], rowsOf) == DrawingBox(SplinesBox(b, ss[..i], rowsOf), ss[i], rowsOf)
  {
    assert ss[..i + 1][..i] == ss[..i];
  }

  /** Draws one cubic with the rows `rowsOf` gives it, or nothing when it has none. */
  method DrawSpline(mesh: Mesh, cp: Spline, rowsOf: Spline -> Option<Rows>)
    requires mesh.Valid() && SplineShape(mesh)
    modifies mesh`numVertices, mesh`numIndices, mesh`box, mesh`issued
    modifies mesh.vertices, mesh.texCoords, mesh.indices, mesh.device
    ensures mesh.Valid() && SplineShape(mesh)
    ensures mesh.Stream() == old(mesh.Stream()) + Drawing(cp, rowsOf)
    ensures mesh.box == DrawingBox(old(mesh.box), cp, rowsOf)
  {
    var rows := rowsOf(cp);
    if rows.Some? {
      FillSplineWith(mesh, cp, rows.value);
    }
  }

  /** Draws a sequence of buffered cubics in order. */
  method FillSplines(mesh: Mesh, ss: seq<Spline>, rowsOf: Spline -> Option<Rows>)
    requires mesh.Valid() && SplineShape(mesh)
    modifies mesh`numVertices, mesh`numIndices, mesh`box, mesh`issued
    modifies mesh.vertices, mesh.texCoords, mesh.indices, mesh.device
    ensures mesh.Valid() && SplineShape(mesh)
    ensures mesh.Stream() == old(mesh.Stream()) + SplinesStream(ss, rowsOf)
    ensures mesh.box == SplinesBox(old(mesh.box), ss, rowsOf)
  {
    var i := 0;
    assert ss[..0] == [];
    while i != |ss|
      invariant 0 <= i <= |ss|
      invariant mesh.Valid() && SplineShape(mesh)
      invariant mesh.Stream() == old(mesh.Stream()) + SplinesStream(ss[..i], rowsOf)
      invariant mesh.box == SplinesBox(old(mesh.box), ss[..i], rowsOf)
      decreases |ss| - i
    {
      SplinesSnoc(old(mesh.box), ss, i, rowsOf);
      AppendAssoc(old(mesh.Stream()), SplinesStream(ss[..i], rowsOf), Drawing(ss[i], rowsOf));
      DrawSpline(mesh, ss[i], rowsOf);
      i := i + 1;
    }
    assert ss[..i] == ss;
  }

  /** Draws the splines of a chain of chunks, chunk after chunk. */
  method FillChunks(mesh: Mesh, chunks: seq<Chunk>, rowsOf: Spline -> Option<Rows>)
    requires mesh.Valid() && SplineShape(mesh)
    modifies mesh`numVertices, mesh`numIndices, mesh`box, mesh`issued
    modifies mesh.vertices, mesh.texCoords, mesh.indices, mesh.device
    ensures mesh.Valid() && SplineShape(mesh)
    ensures mesh.Stream() == old(mesh.Stream()) + SplinesStream(Flatten(chunks), rowsOf)
    ensures mesh.box == SplinesBox(old(mesh.box), Flatten(chunks), rowsOf)
  {
    assert chunks[..0] == [];
    var c := 0;
    while c < |chunks|
      invariant 0 <= c <= |chunks|
      invariant mesh.Valid() && SplineShape(mesh)
      invariant mesh.Stream() == old(mesh.Stream()) + SplinesStream(Flatten(chunks[..c]), rowsOf)
      invariant mesh.box == SplinesBox(old(mesh.box), Flatten(chunks[..c]), rowsOf)
    {
      ghost var done := Flatten(chunks[..c]);
      FillSplines(mesh, chunks[c].splines, rowsOf);
      SplinesStreamAppend(done, chunks[c].splines, rowsOf);
      AppendAssoc(old(mesh.Stream()), SplinesStream(done, rowsOf), SplinesStream(chunks[c].splines, rowsOf));
      SplinesBoxAppend(old(mesh.box), done, chunks[c].splines, rowsOf);
      FlattenStep(chunks, c);
      c := c + 1;
    }
    assert chunks[..c] == chunks;
  }

  /** The final flush of a mesh holding whole triangles: everything it drew reaches the device. */
  method RenderKeepsStream(mesh: Mesh)
    requires mesh.Valid() && mesh.numIndices % 3 == 0 && (mesh.numIndices < 3 ==> mesh.numIndices == 0)
    modifies mesh`numVertices, mesh`numIndices, mesh.device
    ensures mesh.Valid() && mesh.numVertices == 0 && mesh.numIndices == 0
    ensures StreamOf(mesh.device.submissions) == old(mesh.Stream())
  {
    if mesh.numIndices == 0 {
      assert mesh.indices[..0] == [];
      assert mesh.Pending() == [];
    }
    mesh.Render();
    assert mesh.indices[..0] == [];
    assert mesh.Pending() == [];
  }

  /**
   * A mesh over the vertex and index storage of `mesh` and a fresh texture
   * coordinate array, empty, starting from the box of `mesh`.
   */
  method NewSplineMesh(mesh: Mesh) returns (splineMesh: Mesh)
    requires mesh.Valid()
    ensures fresh(splineMesh) && fresh(splineMesh.texCoords) && fresh(splineMesh.splines)
    ensures splineMesh.Valid() && SplineShape(splineMesh) && splineMesh.splines.Valid()
    ensures splineMesh.device == mesh.device && splineMesh.vertices == mesh.vertices
    ensures splineMesh.indices == mesh.indices && splineMesh.box == mesh.box
    ensures splineMesh.Stream() == StreamOf(mesh.device.submissions)
  {
    var texCoords := new TexCoord3[MaxVertices];
    splineMesh := new Mesh.Init(mesh.device, mesh.vertices, texCoords, mesh.indices);
    splineMesh.box := mesh.box;
    assert splineMesh.indices[..splineMesh.numIndices] == [];
    assert splineMesh.Pending() == [];
  }

  /**
   * The curve pass over a mesh whose triangles are already submitted: a
   * mesh over the same vertex and index storage and a fresh texture
   * coordinate array, starting from the mesh's box, draws every buffered
   * cubic chunk by chunk and is flushed; its box is copied back.
   */
  method MeshSplineFill(mesh: Mesh, rowsOf: Spline -> Option<Rows>)
    requires mesh.Valid() && mesh.numVertices == 0 && mesh.numIndices == 0
    requires mesh.splines.Valid()
    modifies mesh`box, mesh.vertices, mesh.indices, mesh.device
    ensures StreamOf(mesh.device.submissions)
         == old(StreamOf(mesh.device.submissions)) + SplinesStream(old(mesh.splines.Contents), rowsOf)
    ensures mesh.box == SplinesBox(old(mesh.box), old(mesh.splines.Contents), rowsOf)
  {
    ghost var start := StreamOf(mesh.device.submissions);
    var splineMesh := NewSplineMesh(mesh);
    ghost var drawn := SplinesStream(Flatten(mesh.splines.chunks), rowsOf);
    FillChunks(splineMesh, mesh.splines.chunks, rowsOf);
    assert splineMesh.Stream() == start + drawn;
    ShapeAllowsRender(splineMesh.numIndices);
    RenderKeepsStream(splineMesh);
    mesh.box := splineMesh.box;
    splineMesh.Fini();
  }
}
