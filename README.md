# cairo-gral core, modelled in Dafny

cairo-gral is a GPU backend for the cairo 2D graphics library. It turns
filled and stroked paths into triangle meshes and hands them to a small
GPU abstraction layer, gral, which sits on Ogre. Colour gradients become
1024-pixel colour-ramp textures. A separate Ogre component, the
`CairoRenderer`, keeps track of which cairo canvases draw onto which
viewport and renders them after each viewport update.

This project models the following parts and proves properties about them:

- **Configuration and types** (`config.dfy`, `types.dfy`):
  - the mesh capacities (2048 triangles, 6144 vertices and indices);
  - the choice of a 16-bit index type;
  - cairo's 24.8 fixed point;
  - the capability bit test;
  - the splines-buffer head capacity.
  The comment on that capacity says "63 items". The macro actually
  computes 126 items with 8-byte pointers and 127 with 4-byte pointers.
  `GralTypes.SplineBufSizeFits` proves the figure the macro computes.
- **Geometry and matrices** (`geom.dfy`, `matrix.dfy`):
  - the vector macros and linear interpolation;
  - de Casteljau subdivision of a cubic;
  - the clockwise test on a control polygon;
  - the conversion of a cairo matrix;
  - the gral 4x4 matrix operations.
- **Stock colours** (`color.dfy`): white, black, the transparent zero
  colour, and magenta for an unknown stock.
- **The mesh** (`gpu.dfy`, `mesh.dfy`):
  - the vertex, texture-coordinate and index arrays;
  - the bounding box, which starts at FLT_MAX / FLT_MIN;
  - re-materialising a vertex that a flush has consumed;
  - the flush when the index array fills.
  The GPU is a `Device` that records each submitted batch. A mesh's
  *stream* is the vertex data of every triangle it has been given, in
  order: the device's submissions followed by the indices still pending.
- **The splines buffer** (`splines_buffer.dfy`): a chain of chunks. The
  head is embedded. Each further chunk has twice the capacity of the one
  before it.
- **Fill** (`fill.dfy`, `cubic.dfy`, `stencil.dfy`):
  - the fan tessellation of each contour;
  - the classification of cubics by their discriminants (line,
    quadratic, cusp at infinity, serpentine, loop);
  - the split of a cubic at its inflection parameters;
  - the stencil setups for the non-zero and even-odd rules, with a model
    of the stencil buffer that shows what each setup counts.
- **GPU curve fill** (`spline_fill.dfy`, `spline_mesh.dfy`): the
  texture-coordinate rows each cubic is drawn with, and the curve pass
  over the buffered splines. Every drawn cubic is proved to lie on the
  zero set of k^3 - l m. The fill pass as configured never runs this
  path, because GPU spline rendering is switched off.
- **Stroke and pen** (`stroke.dfy`, `pen.dfy`):
  - the stroke mesh emitters (triangle, convex quad, and the
    open / extend / close protocol of a spline hull);
  - the vertex and index counts of the pending batch, which the stroke
    specification tracks exactly, and the free vertex slot the mesh
    asserts before every new vertex (cairo-gral-mesh.c:86). A hull may
    be closed before it has drawn anything. Its two vertices then stay
    in the batch with no index naming them;
  - the pen: vertex count, slopes, and the convolution of the pen's
    vertices along a spline.
- **Colour-ramp source** (`source.dfy`):
  - choosing a source by pattern type;
  - mapping an offset to a pixel;
  - padding a ramp for each extend mode;
  - interpolating between stops;
  - the texture addressing mode, and the lazy loading of the ramp
    texture and the radial shader.
- **Common resources** (`common.dfy`):
  - the reference-counted GPU resources record;
  - the full-surface quad;
  - the depth state.
- **Ogre renderer** (`renderer.dfy`):
  - the viewport-to-canvas multimap;
  - surface and listener bookkeeping;
  - the frame bracketing of a viewport update;
  - teardown.

Floating-point values are modelled as `real`. Functions the core calls
but does not define are parameters of the model. These are `sqrt`, the
slope comparison, the choice of the active pen vertex and colour packing.
Side effects on the GPU and on Ogre are recorded in append-only event
logs.

## Model

| member | source | states |
|---|---|---|
| Config.CapacitiesHoldWholeTriangles | cairo/src/cairo-gral/cairo-gral-config.h:40-42 | Vertex and index capacities are 6144 each; an index capacity that is a multiple of 3 holds exactly MAX_TRIGS triangles |
| Config.FlushFallsOnTriangleBoundary | cairo/src/cairo-gral/cairo-gral-config.h:40-42 | A triangle-aligned index count below the capacity leaves room for a whole triangle, so a flush triggered by a full index array falls on a triangle boundary |
| GralTypes.SlotFitsIndexType | cairo/src/cairo-gral/cairo-gral-private.h:49-55 | With 6144 vertices the short-index branch is taken and every vertex slot fits a 16-bit index |
| GralTypes.FixedToDouble | cairo/src/cairo-gral/cairo-gral-private.h:194-197 | A 24.8 fixed-point value times 256 gives back the fixed-point integer |
| GralTypes.FixedToDoubleInjective | cairo/src/cairo-gral/cairo-gral-private.h:194-197 | Distinct fixed-point coordinates map to distinct vertex coordinates |
| GralTypes.HasCapabilityBitTest | cairo/src/cairo-gral/cairo-gral-private.h:303 | The capability mask test for the fragment-program capability is exactly a test of bit 1 |
| GralTypes.SplineBufSizeFits | cairo/src/cairo-gral/cairo-gral-private.h:113-133 | The computed head capacity is the largest that keeps the splines buffer within 4 KiB: 126 splines with 8-byte pointers, 127 with 4-byte pointers |
| GralColor.StockColor | gral/src/gral-color.c:27-60 | White, black and zero are the opaque white, opaque black and transparent black colours; any other stock value yields opaque magenta |
| GralColor.StockColorsAreGreys | gral/src/gral-color.c:27-60 | A stock value is known exactly when its colour is not magenta; known stock colours are greys, opaque except for zero |
| GralMath.AddSubInverse | cairo/src/cairo-gral/cairo-gral-math.h:56-66 | Vector subtraction undoes addition and addition undoes subtraction |
| GralMath.Cross2Antisymmetric | cairo/src/cairo-gral/cairo-gral-math.h:74 | The 2D cross product changes sign when its arguments are swapped and vanishes on equal vectors |
| GralMath.Cross3Orthogonal | cairo/src/cairo-gral/cairo-gral-math.h:81-88 | The 3D cross product is orthogonal to both its arguments |
| GralMath.TripleProductIsDeterminant | cairo/src/cairo-gral/cairo-gral-math.h:81-88 | a . (b x c) is the determinant of a, b, c and is invariant under cyclic rotation |
| GralMath.LerpEnds | cairo/src/cairo-gral/cairo-gral-math.h:90 | Interpolation gives a at 0 and b at 1, equals a(1-t) + bt, and is symmetric under swapping the ends with t := 1 - t |
| GralMath.ColorLerp | cairo/src/cairo-gral/cairo-gral-math.h:91-97 | Each channel is interpolated separately; t = 0 gives the first colour and t = 1 the second |
| GralMath.ColorLerpSame | cairo/src/cairo-gral/cairo-gral-math.h:91-97 | Interpolating a colour with itself gives that colour |
| GralMath.SubdivideEnds | cairo/src/cairo-gral/cairo-gral-math.c:66-98 | The left half starts at the first knot and the right half ends at the last knot; their outer control points lie on the outer edges at t |
| GralMath.SubdivideJoin | cairo/src/cairo-gral/cairo-gral-math.c:66-98 | The two halves meet at the point of the cubic at parameter t, as the cubic Bernstein form gives it |
| GralMath.SubdivideAtEnds | cairo/src/cairo-gral/cairo-gral-math.c:66-98 | Splitting at 0 leaves the whole cubic as the right half; splitting at 1 leaves it as the left half |
| GralMath.SubdivideTraces | cairo/src/cairo-gral/cairo-gral-math.c:66-98 | The left half at u is the cubic at t u, and the right half at u is the cubic at t + (1 - t) u: the halves trace [0, t] and [t, 1] of the original |
| GralMath.LargerMagnitude | cairo/src/cairo-gral/cairo-gral-math.c:110-113 | The orientation's choice: whichever of the two corner cross products is larger in magnitude, preferring the first on a tie |
| GralMath.QuadIsClockwise | cairo/src/cairo-gral/cairo-gral-math.c:100-116 | Clockwise needs a positive corner cross product; both corners non-negative and one positive gives clockwise; both non-positive gives counter-clockwise |
| GralMath.ClockwiseTranslationInvariant | cairo/src/cairo-gral/cairo-gral-math.c:100-116 | Translating the control polygon does not change the clockwise test |
| GralMath.ClockwiseMirror | cairo/src/cairo-gral/cairo-gral-math.c:100-116 | Mirroring a non-degenerate control polygon flips the clockwise test |
| GralMath.OrientationAngleScales | cairo/src/cairo-gral/cairo-gral-math.c:100-116 | Under an invertible cairo matrix the orientation is multiplied by the matrix's determinant |
| GralMath.ClockwiseUnderTransform | cairo/src/cairo-gral/cairo-gral-math.c:100-116 | A matrix of positive determinant keeps the clockwise test; a negative determinant flips it for a non-degenerate control polygon |
| GralMath.MatrixFromCairoMatrix | cairo/src/cairo-gral/cairo-gral-math.c:55-64 | The converted matrix keeps z and w: its last two rows are those of the identity |
| GralMath.MatrixFromCairoActsAsCairo | cairo/src/cairo-gral/cairo-gral-math.c:55-64 | Applied to (x, y, z, 1), the converted matrix gives cairo's affine transform of (x, y) and leaves z and w unchanged |
| GralMatrix.Identity | gral/src/gral-matrix.c:27-38 | The identity has 1 on the diagonal and 0 everywhere else |
| GralMatrix.Init | gral/src/gral-matrix.c:40-51 | The sixteen arguments become the entries in row-major order |
| GralMatrix.Matrix.InitIdentity | gral/src/gral-matrix.c:53-57 | A new matrix is the identity |
| GralMatrix.InitTranslate | gral/src/gral-matrix.c:75-82 | A translation matrix is the identity except for (x, y, z) in the last column |
| GralMatrix.TranslateMovesPoints | gral/src/gral-matrix.c:75-82 | A translation matrix moves a point by (x, y, z) times its w |
| GralMatrix.InitScale | gral/src/gral-matrix.c:84-91 | A scaling matrix is diagonal with (x, y, z, 1) on the diagonal |
| GralMatrix.MultiplyEntries | gral/src/gral-matrix.c:93-121 | Each entry of the product is the sum of the row-times-column products |
| GralMatrix.MultiplyIdentity | gral/src/gral-matrix.c:93-121 | The identity is a left and right unit of multiplication |
| GralMatrix.MultiplyIsComposition | gral/src/gral-matrix.c:93-121 | Applying a product to a vector is applying the right factor and then the left |
| GralMatrix.Matrix.MultiplyInto | gral/src/gral-matrix.c:93-121 | The result matrix holds the product of the two operands as they were on entry, so it may alias either of them |
| GralMatrix.Matrix.Translate | gral/src/gral-matrix.c:59-65 | The matrix is post-multiplied by a translation, so the translation acts on a point first |
| GralMatrix.Matrix.Scale | gral/src/gral-matrix.c:67-73 | The matrix is post-multiplied by a scaling, so the scaling acts on a point first |
| GralMatrix.TranslationsCompose | gral/src/gral-matrix.c:59-82 | Two translations compose into the translation by the sum of their offsets |
| GralMatrix.ScalingsCompose | gral/src/gral-matrix.c:67-91 | Two scalings compose into the scaling by the products of their factors |
| Meshes.GrowBox | cairo/src/cairo-gral/cairo-gral-mesh.c:81-84 | The grown box contains the new vertex |
| Meshes.GrowBoxKeeps | cairo/src/cairo-gral/cairo-gral-mesh.c:81-84 | Growing a box keeps every point it already contained |
| Meshes.GrowBoxSame | cairo/src/cairo-gral/cairo-gral-mesh.c:81-84 | Growing a box by a point it already contains leaves it unchanged |
| Meshes.GrowBoxIsTight | cairo/src/cairo-gral/cairo-gral-mesh.c:81-84 | Each bound moves only outwards, and only to the new vertex's coordinate |
| Meshes.BoxOfContainsAll | cairo/src/cairo-gral/cairo-gral-mesh.c:81-84 | The box after a sequence of vertices contains each of them |
| Meshes.NegativeGeometryKeepsFltMinMaxima | cairo/src/cairo-gral/cairo-gral-mesh.c:64-66 | FLT_MIN is positive, so the maxima of a box over vertices with negative coordinates stay at FLT_MIN |
| Meshes.Mesh.Init | cairo/src/cairo-gral/cairo-gral-mesh.c:40-69 | A new mesh uses the given arrays, has no vertices or indices, starts at the initial box and has an empty splines buffer |
| Meshes.Mesh.Fini | cairo/src/cairo-gral/cairo-gral-mesh.c:71-75 | Finalising empties the splines buffer |
| Meshes.Mesh.AddVertexFloat | cairo/src/cairo-gral/cairo-gral-mesh.c:77-92 | The vertex goes at depth Z into the next free slot, whose index is returned; the box grows by it; no other slot changes |
| Meshes.Mesh.AddVertexPair | cairo/src/cairo-gral/cairo-gral-mesh.c:77-92 | Two consecutive vertex additions take the next two slots and grow the box by both |
| Meshes.Mesh.AddVertexPosAndTex | cairo/src/cairo-gral/cairo-gral-mesh.c:94-107 | Like a plain vertex addition, but the texture coordinate is also stored in the same slot |
| Meshes.Mesh.AddIndex | cairo/src/cairo-gral/cairo-gral-mesh.c:109-143 | The stream gains the data of the given slot; a slot consumed by a flush is copied to a fresh slot, which is returned; a full index array is flushed to the device |
| Meshes.Mesh.StoreIndex | cairo/src/cairo-gral/cairo-gral-mesh.c:113-136 | The index is recorded, after re-materialising a consumed slot; the stream gains that slot's data |
| Meshes.Mesh.Rematerialise | cairo/src/cairo-gral/cairo-gral-mesh.c:115-133 | A slot at or past the vertex count is copied, with its texture coordinate, into the next free slot, and the box grows by it |
| Meshes.Mesh.RecordIndex | cairo/src/cairo-gral/cairo-gral-mesh.c:135-136 | A live slot is appended to the pending indices |
| Meshes.Mesh.Render | cairo/src/cairo-gral/cairo-gral-mesh.c:145-190 | Fewer than 3 indices submit nothing; otherwise the pending batch is submitted and the stream is unchanged; both counts are reset either way |
| Meshes.PrefixStream | cairo/src/cairo-gral/cairo-gral-mesh.c:158-184 | Uploading only the first num_vertices slots submits the same triangles as the whole arrays, since every index is below the count |
| SplinesBuffers.SplinesBuffer.Init | cairo/src/cairo-gral/cairo-gral-splines-buffer.c:76-86 | The chain is the embedded head alone, empty, with the computed head capacity |
| SplinesBuffers.SplinesBuffer.Add | cairo/src/cairo-gral/cairo-gral-splines-buffer.c:88-106 | The spline is appended to the contents; a full tail gets a new chunk of twice its capacity; a failed allocation returns NO_MEMORY and changes nothing |
| SplinesBuffers.StoreInTail | cairo/src/cairo-gral/cairo-gral-splines-buffer.c:103 | Storing into a tail with room keeps the chain shape and appends to the contents |
| SplinesBuffers.LinkChunk | cairo/src/cairo-gral/cairo-gral-splines-buffer.c:39-48 | Linking a doubled chunk after a full tail keeps the chain shape and appends to the contents |
| SplinesBuffers.HeadEmptyIffBufferEmpty | cairo/src/cairo-gral/cairo-gral-splines-buffer.c:108-112 | The head chunk is empty exactly when the whole buffer is empty |
| SplinesBuffers.SplinesBuffer.IsEmpty | cairo/src/cairo-gral/cairo-gral-splines-buffer.c:108-112 | Checking only the head's count answers whether the buffer holds no spline |
| SplinesBuffers.SplinesBuffer.Fini | cairo/src/cairo-gral/cairo-gral-splines-buffer.c:114-129 | Every chunk after the head is freed, and the buffer is back to its initial state |
| Stroke.StrokePathMesh.constructor | cairo/src/cairo-gral/cairo-gral-stroke.c:151-159 | The stroke mesh has no texture coordinates and no open hull, and starts at the initial box |
| Stroke.StrokePathMesh.Triangle | cairo/src/cairo-gral/cairo-gral-stroke.c:48-62 | Draws the triangle with its three points in the given order and grows the box by them |
| Stroke.StrokePathMesh.ConvexQuad | cairo/src/cairo-gral/cairo-gral-stroke.c:64-83 | Draws the triangles (q0, q1, q2) and (q0, q2, q3) |
| Stroke.StrokePathMesh.SplineOpen | cairo/src/cairo-gral/cairo-gral-stroke.c:85-96 | Opening a hull adds its two vertices without any index and remembers the opening points |
| Stroke.StrokePathMesh.SplineExtend | cairo/src/cairo-gral/cairo-gral-stroke.c:98-128 | Each side whose point differs from the opening point adds the triangle (forward, backward, new point), forward side first |
| Stroke.StrokePathMesh.SplineClose | cairo/src/cairo-gral/cairo-gral-stroke.c:130-134 | Closing any open hull, whether or not it has drawn, draws nothing and leaves the drawn data, the box and the vertex and index counts as they were |
| Stroke.StrokePathMesh.Emit | cairo/src/cairo-gral/cairo-gral-stroke.c:48-134 | Each stroker call does to the mesh what the stroke specification's step does, including the exact vertex and index counts of the batch |
| Stroke.ExtendsFitAppend | cairo/src/cairo-gral/cairo-gral-mesh.c:86 | A run of extensions finds vertex room exactly when its first part does and the rest does after it |
| Stroke.TidyRunsFit | cairo/src/cairo-gral/cairo-gral-mesh.c:86 | A run in which every hull draws before it is closed always finds a free vertex slot, since the vertex count never passes the index count by more than a fresh hull's two vertices |
| Stroke.IdleHullsLeaveVertices | cairo/src/cairo-gral/cairo-gral-stroke.c:85-134 | Each hull closed without drawing leaves its two vertices in the batch and adds no index, and nothing is drawn |
| Stroke.IdleHullsExhaustVertices | cairo/src/cairo-gral/cairo-gral-mesh.c:77-92 | From an empty batch, 3072 idle hulls fill all 6144 vertex slots with no index, after which no call that adds a vertex has room |
| Stroke.StrokePathMesh.EmitAll | cairo/src/cairo-gral/cairo-gral-stroke.c:161-166 | Any run of stroker calls that follows the protocol leaves the mesh in the state the specification's run gives |
| Stroke.ExtensionsCompareWithOpening | cairo/src/cairo-gral/cairo-gral-stroke.c:105-117 | Extensions never change the opening points, so extending at those points draws nothing |
| Stroke.ExtendAllAppend | cairo/src/cairo-gral/cairo-gral-stroke.c:98-128 | Two runs of extensions compose into the run over their concatenation |
| Stroke.StrokeRunDrawsTriangles | cairo/src/cairo-gral/cairo-gral-stroke.c:48-134 | The stroke emitters only ever draw whole triangles |
| Stroke.StrokeRunCovers | cairo/src/cairo-gral/cairo-gral-stroke.c:170-172 | Every vertex a stroke run draws lies in the box it ends with |
| Stroke.RenderStrokePath | cairo/src/cairo-gral/cairo-gral-stroke.c:136-177 | The stroker's status is returned; on success the device has received exactly the triangles of the run, and the box is returned |
| Stroke.Flush | cairo/src/cairo-gral/cairo-gral-stroke.c:170-172 | The flush sends the whole stream to the device and hands out the box |
| Stroke.PrepareStrokeStencilMask | cairo/src/cairo-gral/cairo-gral-stroke.c:179-200 | Sets the draw-where-zero-and-increment stencil setup and then performs the stroke pass |
| Stencils.FillStencil | cairo/src/cairo-gral/cairo-gral-fill.c:327-345 | Both fill setups always pass, with reference 0 and a full mask |
| Stencils.WindingStencilCountsWinding | cairo/src/cairo-gral/cairo-gral-fill.c:329-336 | Under the non-zero setup, a pixel's stencil ends at its winding number modulo the stencil range |
| Stencils.EvenOddStencilCountsParity | cairo/src/cairo-gral/cairo-gral-fill.c:337-344 | Under the even-odd setup, a pixel's stencil is non-zero exactly when an odd number of triangles covers it |
| Stencils.StrokeStencilMarksOnce | cairo/src/cairo-gral/cairo-gral-stroke.c:191-197 | Under the stroke setup, a pixel is marked once when some covering triangle passes the depth test, so overlapping stroke triangles count once |
| Cubics.LiftedTripleProduct | cairo/src/cairo-gral/cairo-gral-fill.c:145-156 | The triple product of three lifted knots is twice the signed area of their triangle |
| Cubics.DiscriminantsFromEdges | cairo/src/cairo-gral/cairo-gral-fill.c:150-160 | The discriminants d1, d2, d3 expressed through the edge vectors from the first knot |
| Cubics.DiscriminantsTranslationInvariant | cairo/src/cairo-gral/cairo-gral-fill.c:145-160 | Translating all knots leaves the discriminants unchanged |
| Cubics.DiscriminantsScale | cairo/src/cairo-gral/cairo-gral-fill.c:145-160 | Under a cairo matrix every discriminant is multiplied by the matrix's determinant |
| Cubics.ClassifyScaled | cairo/src/cairo-gral/cairo-gral-fill.c:162-200 | Multiplying all three discriminants by the same non-zero factor keeps the kind |
| Cubics.KindAffineInvariant | cairo/src/cairo-gral/cairo-gral-fill.c:145-200 | An invertible cairo matrix does not change the kind of a cubic |
| Cubics.CollinearIsLine | cairo/src/cairo-gral/cairo-gral-fill.c:162-165 | A cubic with collinear knots is classified as a line |
| Cubics.ElevatedQuadraticIsQuadratic | cairo/src/cairo-gral/cairo-gral-fill.c:167-170 | A genuine quadratic raised to a cubic has d1 = d2 = 0 and d3 not 0, so it is classified as a quadratic |
| Cubics.SortPair | cairo/src/cairo-gral/cairo-gral-fill.c:203-208 | The swap puts the two inflection parameters in ascending order without changing them |
| Cubics.CuspParameterIsInflection | cairo/src/cairo-gral/cairo-gral-fill.c:172-179 | For a cusp at infinity the two parameters coincide and are a root of the inflection polynomial |
| Cubics.SerpentineParametersAreInflections | cairo/src/cairo-gral/cairo-gral-fill.c:181-200 | For a serpentine, given an exact square root, both parameters are roots of the inflection polynomial |
| Cubics.LoopParametersAreDoublePoints | cairo/src/cairo-gral/cairo-gral-fill.c:181-200 | For a loop, given an exact square root, both parameters are roots of the double-point polynomial |
| Cubics.SplitAtInflections | cairo/src/cairo-gral/cairo-gral-fill.c:210-247 | The pieces chain from the first knot to the last; the cubic is kept whole exactly when neither parameter lies in (0, 1), and split in three exactly when both do and differ |
| Cubics.SplitTraces | cairo/src/cairo-gral/cairo-gral-fill.c:203-247 | Piece j traces the original cubic between the increasing split parameters b[j] and b[j+1], which run from 0 over the inner inflections to 1; the rescaled second split lands on i2 |
| Cubics.CurvePieces | cairo/src/cairo-gral/cairo-gral-fill.c:162-247 | A line buffers nothing, a quadratic buffers itself, and any other cubic buffers at most three chained pieces |
| Cubics.CurveEndsAtLastKnot | cairo/src/cairo-gral/cairo-gral-fill.c:164-246 | Whatever the classification, the fill's last line for a curve ends at its last knot |
| Fill.FillPathMesh.constructor | cairo/src/cairo-gral/cairo-gral-fill.c:269-278 | The fill mesh has no texture coordinates, no contour and an empty splines buffer |
| Fill.FillPathMesh.MoveTo | cairo/src/cairo-gral/cairo-gral-fill.c:50-67 | Ends the contour; a contour of a single segment gives its last two vertices back |
| Fill.FillPathMesh.LineTo | cairo/src/cairo-gral/cairo-gral-fill.c:98-105 | The line callback on a fixed-point point does what the fan specification's line step does |
| Fill.FillPathMesh.LineToVector | cairo/src/cairo-gral/cairo-gral-fill.c:69-96 | A repeated point is skipped; the first segment makes the current point the fan centre; later ones add the triangle (centre, previous, new) |
| Fill.FillPathMesh.AddSpline | cairo/src/cairo-gral/cairo-gral-fill.c:107-117 | Returns SUCCESS or NO_MEMORY, and SUCCESS whenever the allocation succeeds; on success the spline has been buffered and a line drawn to its last knot |
| Fill.FillPathMesh.CurveTo | cairo/src/cairo-gral/cairo-gral-fill.c:119-248 | The curve callback does what the fan specification's curve step does: a line, a buffered quadratic, or the pieces between the sorted inflections |
| Fill.FillPathMesh.AddAtInflections | cairo/src/cairo-gral/cairo-gral-fill.c:172-211 | The inflection parameters are computed for the cubic's kind, sorted, and the cubic is buffered as its split pieces |
| Fill.FillPathMesh.AddPieces | cairo/src/cairo-gral/cairo-gral-fill.c:210-247 | On success every split piece has been buffered in order, each followed by its line to the piece's end; with a successful allocation it always succeeds |
| Fill.FillPathMesh.ClosePath | cairo/src/cairo-gral/cairo-gral-fill.c:250-254 | Closing a path always succeeds |
| Fill.FillPathMesh.Interpret | cairo/src/cairo-gral/cairo-gral-fill.c:285-300 | The callbacks over a path leave the mesh as the fan specification of the whole path says; a flattened path always succeeds |
| Fill.FillPathMesh.Callback | cairo/src/cairo-gral/cairo-gral-fill.c:284-300 | One path element goes to its callback; only a curve can fail, and on success the mesh is the fan specification's step for that element |
| Fill.TessellatePath | cairo/src/cairo-gral/cairo-gral-fill.c:269-300 | A fresh fill mesh interprets the path; it succeeds whenever allocation does or the path is flattened, and then holds the fan specification of the path |
| Fill.FanLineDrawsOneTriangle | cairo/src/cairo-gral/cairo-gral-fill.c:69-96 | A line step draws either nothing or exactly one triangle |
| Fill.FanCurveCases | cairo/src/cairo-gral/cairo-gral-fill.c:162-247 | The curve step's three cases, read off the discriminants |
| Fill.ContourIsFan | cairo/src/cairo-gral/cairo-gral-fill.c:69-96 | A contour through distinct points p1 .. pk draws the fan (p0, pi, pi+1) around its first point, and the box grows by every point |
| Fill.FlatPathBuffersNothing | cairo/src/cairo-gral/cairo-gral-fill.c:293-299 | A flattened path buffers no spline |
| Fill.FanPathCovers | cairo/src/cairo-gral/cairo-gral-fill.c:309-310 | Every vertex the fill draws lies in the box it ends with |
| Fill.FanPathDrawsTriangles | cairo/src/cairo-gral/cairo-gral-fill.c:50-248 | The fill only ever draws whole triangles |
| Fill.FanSplinesAppend | cairo/src/cairo-gral/cairo-gral-fill.c:219-246 | Buffering two runs of pieces composes into buffering their concatenation |
| Fill.RenderFillPathWith | cairo/src/cairo-gral/cairo-gral-fill.c:256-315 | On success the device receives the fans of the interpreted path followed by the curve pass over its buffered splines, and the box is returned |
| Fill.FlushAndDrawCurves | cairo/src/cairo-gral/cairo-gral-fill.c:304-310 | The fans are flushed, then the buffered curves are drawn when there are any |
| Fill.RenderFillPath | cairo/src/cairo-gral/cairo-gral-fill.c:265-282 | With GPU spline rendering disabled, the flattened path is filled whatever the capabilities, and the device receives exactly its fans |
| Fill.PrepareFillStencilMask | cairo/src/cairo-gral/cairo-gral-fill.c:317-348 | Sets the fill rule's stencil setup and performs the fill pass, which succeeds; the device receives exactly the fans of the flattened path and their box is returned |
| SplineFill.LoopReversalIsOppositeSigns | cairo/src/cairo-gral/cairo-gral-gpu-spline-fill.c:132-133 | A loop is reversed exactly when d1 and the first coordinate of M[1] have strictly opposite signs |
| SplineFill.SplineTexCoords | cairo/src/cairo-gral/cairo-gral-gpu-spline-fill.c:40-145 | A line gets no rows; any other cubic gets its kind's rows, negated when the kind's reversal and the clockwise test disagree |
| SplineFill.BaseRowsOnZeroSet | cairo/src/cairo-gral/cairo-gral-gpu-spline-fill.c:77-135 | For every kind, the interpolated texture coordinate lies on the zero set of k^3 - l m all along the curve |
| SplineFill.ReverseNegatesImplicit | cairo/src/cairo-gral/cairo-gral-gpu-spline-fill.c:140-145 | Reversing the rows keeps the curve on the zero set and swaps the inside and outside of the curve |
| SplineFill.CurveOnZeroSet | cairo/src/cairo-gral/cairo-gral-gpu-spline-fill.c:40-145 | Whatever its orientation, every drawn cubic lies on the zero set of its interpolated k^3 - l m |
| SplineFill.DrawingShadesCurve | cairo/src/cairo-gral/cairo-gral-gpu-spline-fill.c:147-177 | A line draws nothing; any other cubic draws six vertices whose corner rows interpolate to the zero set |
| SplineFill.FillSpline | cairo/src/cairo-gral/cairo-gral-gpu-spline-fill.c:40-178 | Drawing one cubic appends its triangles to the stream and grows the box by its knots, or does nothing for a line |
| SplineFill.MeshGpuSplineFill | cairo/src/cairo-gral/cairo-gral-gpu-spline-fill.c:180-232 | The device receives every buffered cubic's triangles in order, and the mesh's box becomes the box over their knots |
| SplineMeshes.SplineStreamIsControlPolygon | cairo/src/cairo-gral/cairo-gral-gpu-spline-fill.c:158-176 | The two triangles share the diagonal P0 P2, and their corners are the four control points at depth Z, each with its own row |
| SplineMeshes.FillSplineWith | cairo/src/cairo-gral/cairo-gral-gpu-spline-fill.c:147-177 | The stream gains the two triangles (k0, k1, k2) and (k0, k2, k3) with their rows, even when a flush falls between them, and the box grows by the four knots |
| SplineMeshes.FillFirstTriangle | cairo/src/cairo-gral/cairo-gral-gpu-spline-fill.c:158-169 | The first three control points, each with its row, become three new vertices and the first triangle of the stream |
| SplineMeshes.FillSecondTriangle | cairo/src/cairo-gral/cairo-gral-gpu-spline-fill.c:171-176 | The second triangle reuses the vertices of k0 and k2 and adds k3; a full index array is flushed |
| SplineMeshes.DrawSpline | cairo/src/cairo-gral/cairo-gral-gpu-spline-fill.c:224 | Drawing a buffered cubic appends its drawing and grows the box as the specification's drawing does |
| SplineMeshes.RenderKeepsStream | cairo/src/cairo-gral/cairo-gral-gpu-spline-fill.c:227 | The final render leaves the device holding the whole stream of the curve pass |
| SplineMeshes.SplinesBoxAppend | cairo/src/cairo-gral/cairo-gral-gpu-spline-fill.c:215-229 | The box over two runs of cubics is the box over the first grown by the second |
| SplineMeshes.SplinesBoxContains | cairo/src/cairo-gral/cairo-gral-gpu-spline-fill.c:202-229 | The box after the curve pass keeps what it held and contains every knot of every drawn cubic |
| SplineMeshes.SplinesStreamAppend | cairo/src/cairo-gral/cairo-gral-gpu-spline-fill.c:216-225 | Drawing two runs of cubics one after the other draws their concatenation |
| SplineMeshes.FillSplines | cairo/src/cairo-gral/cairo-gral-gpu-spline-fill.c:223-224 | Draws a chunk's cubics in order |
| SplineMeshes.FillChunks | cairo/src/cairo-gral/cairo-gral-gpu-spline-fill.c:215-225 | Drawing chunk after chunk draws the buffer's contents in insertion order |
| SplineMeshes.NewSplineMesh | cairo/src/cairo-gral/cairo-gral-gpu-spline-fill.c:193-202 | The curve mesh shares the vertex and index storage, has a fresh texture-coordinate array, and starts from the fill mesh's box |
| SplineMeshes.MeshSplineFill | cairo/src/cairo-gral/cairo-gral-gpu-spline-fill.c:180-232 | The curve pass submits every buffered cubic's drawing and copies its box back to the fill mesh |
| Pen.VerticesNeeded | cairo/src/cairo-gral/cairo-gral-pen.c:133-168 | The vertex count is even and at least 4; it is 4 when the tolerance covers the pen; otherwise it reaches the estimate and is either 4 or at most one above it |
| Pen.VerticesNeededIsLeast | cairo/src/cairo-gral/cairo-gral-pen.c:133-168 | No even count of at least 4 that reaches the estimate is smaller |
| Pen.ComputeSlopes | cairo/src/cairo-gral/cairo-gral-pen.c:170-186 | Each vertex's clockwise and counter-clockwise slopes point to its previous and next vertex, cyclically, and the points are unchanged |
| Pen.SlopesChain | cairo/src/cairo-gral/cairo-gral-pen.c:170-186 | A vertex's counter-clockwise slope is its successor's clockwise slope |
| Pen.TurnIsCyclic | cairo/src/cairo-gral/cairo-gral-pen.c:213-264 | A side steps to the next vertex when the slope is counter-clockwise of it, and to the previous one when the slope is clockwise of it, wrapping around |
| Pen.Walk | cairo/src/cairo-gral/cairo-gral-pen.c:207-266 | A finished walk stops with neither side extending and emits the same number of forward and backward hull points |
| Pen.StoppedSideStays | cairo/src/cairo-gral/cairo-gral-pen.c:217-264 | A side that does not extend keeps its vertex and repeats its hull point |
| Pen.WalkSidesMirror | cairo/src/cairo-gral/cairo-gral-pen.c:207-266 | The backward side walks the negated slope just as the forward side walks the slope |
| Pen.Convolution | cairo/src/cairo-gral/cairo-gral-pen.c:207-266 | A finished convolution leaves the hull open and both sides stopped on pen vertices |
| Pen.ConvolutionIsWalk | cairo/src/cairo-gral/cairo-gral-pen.c:188-268 | Convolving a segment is extending the hull by the points of the walk, and fails exactly when the walk does not finish or an extension finds no free vertex slot |
| Pen.SplineConvolutionIsWalks | cairo/src/cairo-gral/cairo-gral-pen.c:273-321 | Convolving every point of a spline is extending the hull by the walks' points, and fails exactly when a walk does not finish or an extension finds no free vertex slot |
| Pen.Convolve | cairo/src/cairo-gral/cairo-gral-pen.c:207-266 | The stroke mesh reaches exactly the state the convolution specification gives |
| Pen.ConvolveStep | cairo/src/cairo-gral/cairo-gral-pen.c:217-264 | After one loop iteration, the rest of the convolution from the new walk state, with less fuel, is the whole convolution |
| Pen.PenStroker.Init | cairo/src/cairo-gral/cairo-gral-pen.c:339-367 | A degenerate spline returns DEGENERATE, a failed pen copy returns NO_MEMORY, and otherwise the stroker keeps the pen, the mesh, the start point and the end slopes |
| Pen.PenStroker.AddConvolvedPoints | cairo/src/cairo-gral/cairo-gral-pen.c:188-268 | Adds the convolution of the pen along one segment to the hull, as the specification gives it |
| Pen.PenStroker.AddPoint | cairo/src/cairo-gral/cairo-gral-pen.c:323-337 | Convolves along the slope from the last point to the new point, which becomes the last point |
| Pen.PenStroker.ConvolvePoints | cairo/src/cairo-gral/cairo-gral-pen.c:299-316 | Each point of the decomposition, then the spline's final slope, is convolved into the hull |
| Pen.PenStroker.OpenWalk | cairo/src/cairo-gral/cairo-gral-pen.c:285-301 | The walk starts at the active vertices for the initial slope and for its negation, each hull point being the last point offset by its vertex |
| Pen.PenStroker.StrokeSpline | cairo/src/cairo-gral/cairo-gral-pen.c:273-321 | A pen of at most one vertex draws nothing; otherwise a hull is opened at the active vertices, every point is convolved and the hull is closed, also when it has not drawn |
| Pen.StillSplineLeavesHullUnmoved | cairo/src/cairo-gral/cairo-gral-pen.c:273-321 | A spline whose walks only repeat the opening hull points leaves the hull exactly as it was opened, so it closes without having drawn |
| Source.SetSourceDispatch | cairo/src/cairo-gral/cairo-gral-source.c:156-179 | Surface patterns are unsupported and every other kind succeeds; gradients and only gradients use a ramp texture unit |
| Source.SetSource | cairo/src/cairo-gral/cairo-gral-source.c:156-179 | Gradients fill the ramp and load the ramp texture, radial gradients also load their shader, other sources touch neither |
| Source.PixelOf | cairo/src/cairo-gral/cairo-gral-source.c:205-215 | An offset maps to the floor of offset times the width, with offset 1 clamped to the last pixel |
| Source.PixelOfMonotone | cairo/src/cairo-gral/cairo-gral-source.c:205-215 | Larger offsets never map to earlier pixels |
| Source.PadNone | cairo/src/cairo-gral/cairo-gral-source.c:220-225 | With no extend, the pixels outside the stop range become transparent and the rest are unchanged |
| Source.PadEnds | cairo/src/cairo-gral/cairo-gral-source.c:227-236 | With pad or reflect, the pixels before and after the stop range take the end colours |
| Source.PadRepeat | cairo/src/cairo-gral/cairo-gral-source.c:238-257 | With repeat, the pixels outside the stop range are interpolated between the last and first stop colours |
| Source.FillPads | cairo/src/cairo-gral/cairo-gral-source.c:217-258 | The texture becomes the padded ramp for the extend mode |
| Source.LerpSegment | cairo/src/cairo-gral/cairo-gral-source.c:273-278 | The pixels between two stops are interpolated between their colours |
| Source.FillStops | cairo/src/cairo-gral/cairo-gral-source.c:260-283 | The first stop's pixel gets its colour, then each later stop interpolates from the previous stop |
| Source.FillColorRamp | cairo/src/cairo-gral/cairo-gral-source.c:181-286 | The texture becomes the ramp for the stops and extend mode |
| Source.RampOverwritesEveryPixel | cairo/src/cairo-gral/cairo-gral-source.c:217-283 | The ramp does not depend on the texture's previous contents |
| Source.RampPadsAndFirstStop | cairo/src/cairo-gral/cairo-gral-source.c:217-262 | Pixels outside the stop range hold the pad colour, and the first stop's pixel holds its colour |
| Source.RampHitsStop | cairo/src/cairo-gral/cairo-gral-source.c:260-283 | A stop whose pixel lies after the previous stop's pixel holds exactly its own colour |
| Source.RampUnitFor | cairo/src/cairo-gral/cairo-gral-source.c:288-304 | The unit's addressing follows the extend mode, with a black border exactly in border mode |
| Source.TextureAddressingIsOneToOne | cairo/src/cairo-gral/cairo-gral-source.c:288-304 | Distinct extend modes get distinct addressing modes, and only no extend gets a border |
| Source.PrepareColorRamp | cairo/src/cairo-gral/cairo-gral-source.c:306-344 | The ramp texture is loaded once and filled with the ramp, and the unit follows the extend mode |
| Common.Append | cairo/src/cairo-gral/cairo-gral-common.c:39-153 | Appending an event keeps a history sound exactly when the event is legal, and it changes only its own object's liveness |
| Common.GpuResources.constructor | cairo/src/cairo-gral/cairo-gral-common.c:39 | The shared record starts zeroed: no reference, no capability, no object |
| Common.GpuResources.Init | cairo/src/cairo-gral/cairo-gral-common.c:41-115 | The first reference records the device capabilities and creates the three buffers and the four declarations, in order |
| Common.GpuResources.CreateBuffers | cairo/src/cairo-gral/cairo-gral-common.c:51-64 | The position, texture-coordinate and index buffers are created, in that order |
| Common.GpuResources.CreateDeclarations | cairo/src/cairo-gral/cairo-gral-common.c:66-114 | The source, stencil and spline vertex data and the index data are created, in that order |
| Common.GpuResources.Acquire | cairo/src/cairo-gral/cairo-gral-common.c:117-127 | The first acquire initialises the record; later ones only count a reference |
| Common.GpuResources.Release | cairo/src/cairo-gral/cairo-gral-common.c:129-153 | The last release destroys the buffers, the declarations and every loaded object, then zeroes the record; earlier ones only drop a reference |
| Common.GpuResources.DestroyBuffers | cairo/src/cairo-gral/cairo-gral-common.c:137-143 | The buffers and declarations are destroyed in order |
| Common.GpuResources.DestroyLoaded | cairo/src/cairo-gral/cairo-gral-common.c:145-150 | Each lazily loaded object that is set is destroyed |
| Common.GpuResources.LoadOnce | cairo/src/cairo-gral/cairo-gral-source.c:188-200 | A lazily loaded object is created only when its field is not yet set |
| Common.QuadStrip | cairo/src/cairo-gral/cairo-gral-common.c:177-182 | The four corners in the order the vertex buffer receives them |
| Common.QuadStripCoversRectangle | cairo/src/cairo-gral/cairo-gral-common.c:177-199 | The strip's two triangles have the same winding and together cover the rectangle's area |
| Common.RenderQuad | cairo/src/cairo-gral/cairo-gral-common.c:173-201 | The device receives one unindexed strip of the four corners |
| Common.DepthState | cairo/src/cairo-gral/cairo-gral-common.c:238-241 | Depth is tested with LESS only when there is a clip, and is never written |
| Common.DepthStateClips | cairo/src/cairo-gral/cairo-gral-common.c:238-241 | Without a clip every fragment passes; with one a fragment passes only in front of the clip's depth |
| OgreRenderer.RejectsOnlyFastestDirect3D | OgreCairoRenderer/src/OgreCairoRenderer.cpp:33-43 | A Direct3D9 render system in Fastest floating-point mode is rejected, while Consistent mode, OpenGL, and a name starting with lower-case "direct3D" are accepted, since the prefix test is case-sensitive |
| OgreRenderer.CairoRenderer.Create | OgreCairoRenderer/src/OgreCairoRenderer.cpp:33-43 | Construction fails exactly for Direct3D in Fastest mode; otherwise the renderer starts with no canvases and no events |
| OgreRenderer.CairoRenderer.constructor | OgreCairoRenderer/src/OgreCairoRenderer.cpp:33-43 | A new renderer holds no canvases and has made no calls |
| OgreRenderer.CairoRenderer.Dispose | OgreCairoRenderer/src/OgreCairoRenderer.cpp:45-51 | Every viewport's listener is removed and its surface destroyed, two calls per viewport |
| OgreRenderer.TeardownCalls | OgreCairoRenderer/src/OgreCairoRenderer.cpp:45-51 | Two calls per held viewport, including its listener removal and its surface destruction |
| OgreRenderer.FirstIndex | OgreCairoRenderer/src/OgreCairoRenderer.cpp:55-59 | The position of the first occurrence of the canvas, or the length when it is absent |
| OgreRenderer.FindCanvas | OgreCairoRenderer/src/OgreCairoRenderer.cpp:55-59 | The search loop stops at the first occurrence of the canvas, or at the end |
| OgreRenderer.CairoRenderer.AddCanvas | OgreCairoRenderer/src/OgreCairoRenderer.cpp:53-69 | The pair is added when absent; a viewport's first canvas attaches the renderer to the viewport |
| OgreRenderer.CairoRenderer.RemoveCanvas | OgreCairoRenderer/src/OgreCairoRenderer.cpp:71-87 | The pair is removed when present; removing a viewport's last canvas detaches the renderer from it |
| OgreRenderer.AddPairKeeps | OgreCairoRenderer/src/OgreCairoRenderer.cpp:53-69 | Adding keeps every canvas list duplicate-free and non-empty, and touches only its viewport |
| OgreRenderer.RemovePairKeeps | OgreCairoRenderer/src/OgreCairoRenderer.cpp:71-87 | Removing keeps the lists well kept, drops the viewport's key exactly when its last canvas goes, and touches only its viewport |
| OgreRenderer.RemoveUndoesAdd | OgreCairoRenderer/src/OgreCairoRenderer.cpp:53-87 | Removing a canvas that was just added restores the multimap |
| OgreRenderer.AddIdempotentRemoveAbsent | OgreCairoRenderer/src/OgreCairoRenderer.cpp:53-87 | Adding a pair twice is adding it once; removing an absent pair changes nothing |
| OgreRenderer.CairoRenderer.AttachToViewport | OgreCairoRenderer/src/OgreCairoRenderer.cpp:89-98 | A fresh surface is created for the viewport and the renderer starts listening to it |
| OgreRenderer.CairoRenderer.DetachFromViewport | OgreCairoRenderer/src/OgreCairoRenderer.cpp:100-107 | The listener is removed, then the viewport's surface is destroyed and forgotten |
| OgreRenderer.CairoRenderer.PostViewportUpdate | OgreCairoRenderer/src/OgreCairoRenderer.cpp:109-134 | The events are the viewport update's events over the viewport's canvases, in order |
| OgreRenderer.RenderCanvases | OgreCairoRenderer/src/OgreCairoRenderer.cpp:109-134 | The loop with its render-initialised flag produces exactly the update's events |
| OgreRenderer.UpdateBracketsDraws | OgreCairoRenderer/src/OgreCairoRenderer.cpp:109-134 | At most one frame begins; it begins exactly when some canvas needs rendering, its events open with the frame start and close with the frame end |
| OgreRenderer.DrawsAreTheNeedy | OgreCairoRenderer/src/OgreCairoRenderer.cpp:115-129 | Exactly the canvases that need rendering are drawn, each on the viewport's surface |

## Left out

- I/O, the GPU and Ogre: buffer locking and copying, render calls, texture creation and shader compilation are foreign code. They are modelled as events or batch submissions. `_cairo_gral_load_fragment_program` and the shader source are not part of this model.
- `_cairo_gral_vector2_normalize` (cairo-gral-math.c:39-53) needs a square root and is used only by the gradient matrices, which are left out.
- The gradient matrices and the radial shader's parameters (cairo-gral-source.c:60-141) are floating-point set-up against the GPU layer. Only the lazy loading of the radial shader is kept.
- The texture filtering and blending calls (cairo-gral-source.c:313-330, 343), the solid source's lighting state, and `_cairo_gral_init_render_state`'s matrices and state calls are left out. Only the depth set-up is kept.
- Colour packing (`_cairo_gral_cairo_color_to_argb`, `gral_color_to_argb`) is the parameter `toArgb`. The cairo-colour path and the gral-colour path are treated alike.
- Floating point: every float and double is a `real`. Rounding of `t`, the float cast of fixed-point coordinates, and NaN or infinity are not modelled. `sqrt` is a parameter. The solution properties of the inflection and double-point parameters assume it is exact at the value asked for.
- cairo's 32-bit fixed-point wrap-around is not modelled: fixed-point coordinates are unbounded integers.
- The external stroker and the path interpreter are not part of this model. The stroker's output is a sequence of calls that follows the hull protocol. The path is a sequence of move, line, curve and close callbacks. Spline flattening and decomposition are given as point sequences.
- Pen.Walk, Pen.Convolution, Pen.Convolve: the slope comparison and the choice of the active vertex come from cairo-slope.c and the pen code, which are not part of this model. They are parameters. Termination of the convolution walk depends on them, so the walk carries a fuel bound. The model does not show that the walk ends.
- Stroke.StrokePathMesh.Emit, Stroke.StrokePathMesh.EmitAll, Stroke.RenderStrokePath: the protocol they require includes a free vertex slot for every vertex a call adds. The mesh asserts this (cairo-gral-mesh.c:86), and the model does not cover a run that breaks it. `Stroke.TidyRunsFit` shows the room is always there when every hull draws before it is closed. `Stroke.IdleHullsExhaustVertices` shows that hulls closed without drawing can use it up.
- Pen.PenStroker.StrokeSpline: requires that the convolution of every point finishes within the fuel. This is assumed, not proved. It also requires a free vertex slot for every vertex the hull adds, which is the condition that the mesh asserts (cairo-gral-mesh.c:86).
- The pen walk runs on a copy of the stroker's walk state and writes it back with `SetWalk`, rather than updating the fields in place.
- Allocation results are parameters: `allocOk` for a new splines chunk, and `copyOk` and `splineOk` for pen and spline set-up.
- The splines buffer's chunk chain is a sequence of chunk values, not a doubly linked list with `prev` pointers.
- Meshes.Mesh.Init keeps the box initialisation as written: maxima start at FLT_MIN, a positive number. For geometry entirely at negative coordinates the maxima therefore stay at FLT_MIN, as `NegativeGeometryKeepsFltMinMaxima` shows. The box is only used to size a covering quad, so the result stays conservative.
- The GPU spline rendering switch, `CAIRO_GRAL_DISABLE_GPU_SPLINE_RENDERING`, is set to 1 in the configuration (cairo/src/cairo-gral/cairo-gral-config.h:49). `RenderFillPath` therefore clears the shader flag (cairo/src/cairo-gral/cairo-gral-fill.c:280-282), and the curved interpretation of a fill is only reachable through `Fill.RenderFillPathWith`. Fragment shaders themselves stay enabled: `CAIRO_GRAL_DISABLE_FRAGMENT_SHADERS` is commented out (cairo-gral-config.h:48).
- The Direct3D check is a string predicate over the render system's name and its floating-point option. The options lookup is a parameter.
- The render-state calls of a viewport update (depth bias, fog, program unbinding) are folded into its single BeginFrame event.
- Listener registration goes per viewport rather than per render target.
- OgreRenderer.CairoRenderer.Dispose: the teardown order over the std::map, which is keyed by address, is not modelled. Only the calls made are stated, not their order.
- A canvas's `onDraw` is not given the chance to re-enter the renderer.
