/**
 * The mesh builder every tessellator writes into: fixed-capacity vertex,
 * texture-coordinate and index arrays, a running bounding box, and a flush
 * that submits the arrays to the GPU when the index array is full.
 *
 * The vertex arrays are not cleared by a flush, so an index issued before
 * it still names a slot holding the vertex's data; adding such a stale
 * index copies the data into a fresh slot first ("re-materialisation").
 * The property this buys is stated by `Stream`: every `AddIndex` appends
 * the data of the slot it was given to the sequence of vertex data drawn,
 * whether or not a flush happened in between.
 */
module Meshes {
  import opened Config
  import opened GralTypes
  import opened Gpu
  import opened SplinesBuffers

  /** FLT_MAX, the largest finite float: (2 - 2^-23) * 2^127. */
  const FltMax: real := 340282346638528859811704183484516925440.0
  /** FLT_MIN, the smallest positive normalised float: 2^-126. */
  const FltMin: real := 1.0 / 85070591730234615865843651857942052864.0

  /** The box a mesh starts with: minima at FLT_MAX, maxima at FLT_MIN. */
  const InitialBox: BoundBox := BoundBox(FltMax, FltMax, FltMin, FltMin)

  /** The box after a vertex at (x, y): each bound moves independently. */
  function GrowBox(b: BoundBox, x: real, y: real): (g: BoundBox)
    ensures g.Contains(x, y)
  {
    BoundBox(if x < b.minX then x else b.minX,
             if y < b.minY then y else b.minY,
             if x > b.maxX then x else b.maxX,
             if y > b.maxY then y else b.maxY)
  }

  /** Growing a box keeps every point it held. */
  lemma GrowBoxKeeps(b: BoundBox, x: real, y: real)
    ensures forall px, py :: b.Contains(px, py) ==> GrowBox(b, x, y).Contains(px, py)
  {
  }

  /** Growing a box by a point it holds changes nothing. */
  lemma GrowBoxSame(b: BoundBox, x: real, y: real)
    requires b.Contains(x, y)
    ensures GrowBox(b, x, y) == b
  {
  }

  /** Three appends of one element each are one append of the three. */
  lemma AppendThree<T>(s: seq<T>, a: T, b: T, c: T)
    ensures s + [a] + [b] + [c] == s + [a, b, c]
  {
  }

  /** Two triangles appended one after the other are the six vertices appended at once. */
  lemma AppendTwoTriangles<T>(s: seq<T>, a: T, b: T, c: T, d: T, e: T, f: T)
    ensures s + [a, b, c] + [d, e, f] == s + [a, b, c, d, e, f]
  {
  }

  /** A bound moves only to the new coordinate, and only outwards. */
  lemma GrowBoxIsTight(b: BoundBox, x: real, y: real)
    ensures var g := GrowBox(b, x, y);
            && g.minX <= b.minX && (g.minX == b.minX || g.minX == x)
            && g.minY <= b.minY && (g.minY == b.minY || g.minY == y)
            && g.maxX >= b.maxX && (g.maxX == b.maxX || g.maxX == x)
            && g.maxY >= b.maxY && (g.maxY == b.maxY || g.maxY == y)
  {
  }

  /** The box after a sequence of vertices. */
  function BoxOf(b: BoundBox, pts: seq<Vector2>): BoundBox
  {
    if pts == [] then b else GrowBox(BoxOf(b, pts[..|pts| - 1]), pts[|pts| - 1].x, pts[|pts| - 1].y)
  }

  lemma {:induction false} BoxOfContainsAll(b: BoundBox, pts: seq<Vector2>)
    ensures forall i :: 0 <= i < |pts| ==> BoxOf(b, pts).Contains(pts[i].x, pts[i].y)
  {
    if pts != [] {
      var front := pts[..|pts| - 1];
      BoxOfContainsAll(b, front);
      assert forall i :: 0 <= i < |front| ==> front[i] == pts[i];
    }
  }

  /**
   * FLT_MIN is positive, so a mesh whose vertices all have negative
   * coordinates ends with its maxima at FLT_MIN rather than at the largest
   * coordinate: the box still contains every vertex but is not tight.
   */
  lemma {:induction false} NegativeGeometryKeepsFltMinMaxima(pts: seq<Vector2>)
    requires forall i :: 0 <= i < |pts| ==> pts[i].x < 0.0 && pts[i].y < 0.0
    ensures BoxOf(InitialBox, pts).maxX == FltMin && BoxOf(InitialBox, pts).maxY == FltMin
    ensures FltMin > 0.0
  {
    if pts != [] {
      var front := pts[..|pts| - 1];
      assert forall i :: 0 <= i < |front| ==> front[i] == pts[i];
      NegativeGeometryKeepsFltMinMaxima(front);
    }
  }

  /** The data of a vertex emitted at (x, y) into a mesh without texture coordinates. */
  function PosData(x: real, y: real): VertexData
  {
    VertexData(VertexPos(x, y, ZValue), None)
  }

  class Mesh {
    /** Where flushes are submitted. */
    const device: Device
    const vertices: array<VertexPos>
    /** Present only for meshes drawn with a texture (the GPU curve pass). */
    const texCoords: array?<TexCoord3>
    const indices: array<VertexIndex>
    const splines: SplinesBuffer

    var numVertices: nat
    var numIndices: nat
    var box: BoundBox
    /** High-water mark: slots below it have held a vertex of this mesh. */
    ghost var issued: nat

    /** The invariant every operation keeps, except that a full index array awaits its flush. */
    ghost predicate Wf()
      reads this, vertices, indices, texCoords
    {
      && vertices.Length == MaxVertices && indices.Length == MaxIndices
      && (texCoords != null ==> texCoords.Length == MaxVertices)
      && numVertices <= issued <= MaxVertices && numIndices <= MaxIndices
      && (forall j :: 0 <= j < numIndices ==> indices[j] < numVertices)
      && (forall s :: 0 <= s < issued ==> vertices[s].z == ZValue)
      && (forall s :: 0 <= s < numVertices ==> box.Contains(vertices[s].x, vertices[s].y))
    }

    ghost predicate Valid()
      reads this, vertices, indices, texCoords
    {
      Wf() && numIndices < MaxIndices
    }

    function TexSeq(): Option<seq<TexCoord3>>
      reads texCoords
    {
      if texCoords == null then None else Some(texCoords[..])
    }

    /** The data stored in vertex slot `slot`. */
    function DataAt(slot: int): VertexData
      reads vertices, texCoords
    {
      VertexOf(vertices[..], TexSeq(), slot)
    }

    /** The vertex data the recorded indices select, not yet submitted. */
    function Pending(): seq<VertexData>
      reads this, vertices, indices, texCoords
      requires numIndices <= indices.Length
    {
      IndexedStream(vertices[..], TexSeq(), indices[..numIndices])
    }

    /** Everything drawn through the device so far, followed by this mesh's pending data. */
    function Stream(): seq<VertexData>
      reads this, device, vertices, indices, texCoords
      requires numIndices <= indices.Length
    {
      StreamOf(device.submissions) + Pending()
    }

    /** What a flush of the current state submits. */
    function CurrentBatch(): Submission
      reads this, vertices, indices, texCoords
      requires numVertices <= vertices.Length && numIndices <= indices.Length
      requires texCoords != null ==> numVertices <= texCoords.Length
    {
      IndexedTriangles(vertices[..numVertices],
                       if texCoords == null then None else Some(texCoords[..numVertices]),
                       indices[..numIndices])
    }

    /**
     * An empty mesh over caller-provided arrays: both counts 0, the box at
     * FLT_MAX / FLT_MIN, an empty splines buffer.
     */
    constructor Init(device: Device, vertices: array<VertexPos>, texCoords: array?<TexCoord3>,
                     indices: array<VertexIndex>)
      requires vertices.Length == MaxVertices && indices.Length == MaxIndices
      requires texCoords != null ==> texCoords.Length == MaxVertices
      ensures Valid()
      ensures this.device == device && this.vertices == vertices
      ensures this.texCoords == texCoords && this.indices == indices
      ensures numVertices == 0 && numIndices == 0 && box == InitialBox
      ensures fresh(splines) && splines.Valid() && splines.Contents == []
      ensures Pending() == []
    {
      this.device := device;
      this.vertices := vertices;
      this.texCoords := texCoords;
      this.indices := indices;
      splines := new SplinesBuffer.Init();
      numVertices := 0;
      numIndices := 0;
      box := InitialBox;
      issued := 0;
    }

    /** Releases the splines buffer's extra chunks. */
    method Fini()
      requires splines.Valid()
      modifies splines
      ensures splines.Valid() && splines.Contents == []
    {
      var _ := splines.Fini();
    }

    /**
     * Stores (x, y, 0) in the next free slot, returns that slot and grows
     * the box to contain the point. The caller must leave a slot free.
     */
    method AddVertexFloat(x: real, y: real) returns (index: VertexIndex)
      requires Valid() && numVertices < MaxVertices
      modifies this`numVertices, this`box, this`issued, vertices
      ensures Valid()
      ensures index == old(numVertices) && numVertices == old(numVertices) + 1
      ensures vertices[..] == old(vertices[..])[index := VertexPos(x, y, ZValue)]
      ensures box == GrowBox(old(box), x, y)
      ensures issued >= old(issued)
      ensures Pending() == old(Pending())
      ensures texCoords == null ==> DataAt(index) == PosData(x, y)
      ensures forall s :: s != index ==> DataAt(s) == old(DataAt(s))
    {
      SlotFitsIndexType(numVertices);
      GrowBoxKeeps(box, x, y);
      box := GrowBox(box, x, y);
      vertices[numVertices] := VertexPos(x, y, ZValue);
      index := numVertices;
      numVertices := numVertices + 1;
      if issued < numVertices {
        issued := numVertices;
      }
      StreamAgrees(old(vertices[..]), TexSeq(), vertices[..], TexSeq(), indices[..numIndices]);
    }

    /** Two `AddVertexFloat` calls: (x0, y0) and then (x1, y1) in the next two free slots. */
    method AddVertexPair(x0: real, y0: real, x1: real, y1: real) returns (first: VertexIndex, second: VertexIndex)
      requires Valid() && texCoords == null && numVertices + 1 < MaxVertices
      modifies this`numVertices, this`box, this`issued, vertices
      ensures Valid() && issued >= old(issued)
      ensures first == old(numVertices) && second == first + 1 && numVertices == old(numVertices) + 2
      ensures DataAt(first) == PosData(x0, y0) && DataAt(second) == PosData(x1, y1)
      ensures box == GrowBox(GrowBox(old(box), x0, y0), x1, y1)
      ensures box.Contains(x0, y0) && box.Contains(x1, y1)
      ensures forall px, py :: old(box).Contains(px, py) ==> box.Contains(px, py)
      ensures forall s :: s != first && s != second ==> DataAt(s) == old(DataAt(s))
      ensures Pending() == old(Pending())
    {
      GrowBoxKeeps(box, x0, y0);
      first := AddVertexFloat(x0, y0);
      GrowBoxKeeps(box, x1, y1);
      second := AddVertexFloat(x1, y1);
    }

    /** As `AddVertexFloat`, and stores the texture coordinate in the same slot. */
    method AddVertexPosAndTex(x: real, y: real, tex: TexCoord3) returns (index: VertexIndex)
      requires Valid() && numVertices < MaxVertices && texCoords != null
      modifies this`numVertices, this`box, this`issued, vertices, texCoords
      ensures Valid()
      ensures index == old(numVertices) && numVertices == old(numVertices) + 1
      ensures vertices[..] == old(vertices[..])[index := VertexPos(x, y, ZValue)]
      ensures texCoords[..] == old(texCoords[..])[index := tex]
      ensures box == GrowBox(old(box), x, y)
      ensures issued >= old(issued)
      ensures Pending() == old(Pending())
      ensures DataAt(index) == VertexData(VertexPos(x, y, ZValue), Some(tex))
      ensures forall s :: s != index ==> DataAt(s) == old(DataAt(s))
    {
      index := AddVertexFloat(x, y);
      ghost var vs := vertices[..];
      ghost var ts := TexSeq();
      texCoords[index] := tex;
      StreamAgrees(vs, ts, vertices[..], TexSeq(), indices[..numIndices]);
    }

    /**
     * Records a vertex index. A slot at or past the vertex count (an index
     * issued before the last flush) is first copied into a fresh vertex,
     * and the fresh slot is recorded instead and returned. Filling the
     * index array flushes the mesh.
     */
    method AddIndex(index: VertexIndex) returns (recorded: VertexIndex)
      requires Valid() && index < issued
      requires index >= numVertices ==> numVertices < MaxVertices
      modifies this`numVertices, this`numIndices, this`box, this`issued, vertices, texCoords, indices, device
      ensures Valid() && issued >= old(issued)
      ensures recorded == (if index < old(numVertices) then index else old(numVertices))
      ensures recorded < issued
      ensures DataAt(recorded) == old(DataAt(index))
      ensures Stream() == old(Stream()) + [old(DataAt(index))]
      ensures forall s :: 0 <= s < MaxVertices && s != old(numVertices) ==> DataAt(s) == old(DataAt(s))
      ensures index < old(numVertices) ==> vertices[..] == old(vertices[..]) && TexSeq() == old(TexSeq())
      ensures index < old(numVertices) ==> box == old(box)
      ensures index >= old(numVertices) ==>
                box == GrowBox(old(box), old(vertices[index].x), old(vertices[index].y))
      ensures old(numIndices) + 1 < MaxIndices ==>
                && numIndices == old(numIndices) + 1 && indices[old(numIndices)] == recorded
                && numVertices == old(numVertices) + (if index < old(numVertices) then 0 else 1)
                && device.submissions == old(device.submissions)
      ensures old(numIndices) + 1 == MaxIndices ==>
                && numIndices == 0 && numVertices == 0
                && |device.submissions| == |old(device.submissions)| + 1
                && device.submissions[..|old(device.submissions)|] == old(device.submissions)
    {
      recorded := StoreIndex(index);
      if numIndices < MaxIndices {
        return;
      }
      // the index array is full
      Render();
    }

    /** `AddIndex` up to the flush: the slot, made live if need be, in the next index slot. */
    method StoreIndex(index: VertexIndex) returns (recorded: VertexIndex)
      requires Valid() && index < issued
      requires index >= numVertices ==> numVertices < MaxVertices
      modifies this`numVertices, this`numIndices, this`box, this`issued, vertices, texCoords, indices
      ensures Wf() && issued >= old(issued) && numIndices == old(numIndices) + 1
      ensures recorded == (if index < old(numVertices) then index else old(numVertices))
      ensures recorded < numVertices && recorded < issued
      ensures numVertices == old(numVertices) + (if index < old(numVertices) then 0 else 1)
      ensures indices[old(numIndices)] == recorded
      ensures DataAt(recorded) == old(DataAt(index))
      ensures Stream() == old(Stream()) + [old(DataAt(index))]
      ensures forall s :: 0 <= s < MaxVertices && s != old(numVertices) ==> DataAt(s) == old(DataAt(s))
      ensures index < old(numVertices) ==> vertices[..] == old(vertices[..]) && TexSeq() == old(TexSeq())
      ensures index < old(numVertices) ==> box == old(box)
      ensures index >= old(numVertices) ==>
                box == GrowBox(old(box), old(vertices[index].x), old(vertices[index].y))
    {
      recorded := index;
      if index >= numVertices {
        // the slot was submitted by a flush: copy its data into a fresh vertex
        recorded := Rematerialise(index);
      }
      RecordIndex(recorded);
    }

    /** Copies the data of a slot at or past the vertex count into the next free slot. */
    method Rematerialise(index: VertexIndex) returns (recorded: VertexIndex)
      requires Valid() && numVertices <= index < issued && numVertices < MaxVertices
      modifies this`numVertices, this`box, this`issued, vertices, texCoords
      ensures Valid() && issued >= old(issued)
      ensures recorded == old(numVertices) && numVertices == old(numVertices) + 1
      ensures DataAt(recorded) == old(DataAt(index))
      ensures forall s :: 0 <= s < MaxVertices && s != recorded ==> DataAt(s) == old(DataAt(s))
      ensures box == GrowBox(old(box), old(vertices[index].x), old(vertices[index].y))
      ensures Pending() == old(Pending())
    {
      var p := vertices[index];
      assert p.z == ZValue;
      if texCoords != null {
        var t := texCoords[index];
        recorded := AddVertexPosAndTex(p.x, p.y, t);
      } else {
        recorded := AddVertexFloat(p.x, p.y);
      }
    }

    /** Stores an index naming a live vertex in the next index slot. */
    method RecordIndex(recorded: VertexIndex)
      requires Valid() && recorded < numVertices
      modifies this`numIndices, indices
      ensures Wf() && numIndices == old(numIndices) + 1
      ensures indices[..numIndices] == old(indices[..numIndices]) + [recorded]
      ensures Pending() == old(Pending()) + [DataAt(recorded)]
    {
      ghost var before := indices[..numIndices];
      indices[numIndices] := recorded;
      numIndices := numIndices + 1;
      assert indices[..numIndices] == before + [recorded];
    }

    /**
     * Submits the recorded triangles and empties the mesh. With fewer than
     * three indices nothing is submitted; otherwise the count must be a
     * multiple of 3. Both counts return to 0; the vertex storage is kept.
     */
    method Render()
      requires Wf() && (numIndices < 3 || numIndices % 3 == 0)
      modifies this`numVertices, this`numIndices, device
      ensures Valid() && numVertices == 0 && numIndices == 0
      ensures old(numIndices) < 3 ==> device.submissions == old(device.submissions)
      ensures old(numIndices) >= 3 ==> device.submissions == old(device.submissions) + [old(CurrentBatch())]
      ensures old(numIndices) >= 3 ==> Stream() == old(Stream())
      ensures old(numIndices) < 3 ==> Stream() == StreamOf(old(device.submissions))
    {
      if numIndices >= 3 {
        var batch := CurrentBatch();
        PrefixStream(vertices[..], TexSeq(), numVertices, indices[..numIndices]);
        StreamOfAppend(device.submissions, batch);
        device.Submit(batch);
      }
      numVertices := 0;
      numIndices := 0;
    }
  }

  /**
   * Submitting only the first n vertex slots draws the same data, as long as
   * every index stays below n.
   */
  lemma PrefixStream(vs: seq<VertexPos>, ts: Option<seq<TexCoord3>>, n: nat, ix: seq<VertexIndex>)
    requires n <= |vs| && (ts.Some? ==> |ts.value| == |vs|)
    requires forall j :: 0 <= j < |ix| ==> ix[j] < n
    ensures IndexedStream(vs[..n], if ts.Some? then Some(ts.value[..n]) else None, ix)
         == IndexedStream(vs, ts, ix)
  {
    var ts' := if ts.Some? then Some(ts.value[..n]) else None;
    StreamAgrees(vs[..n], ts', vs, ts, ix);
  }
}
