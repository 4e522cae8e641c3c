/**
 * The GPU as the core sees it: a device that receives draw submissions. Each
 * submission is recorded in order; the vertex data an indexed submission
 * draws is its "stream", the vertices its indices select, one per index.
 */
module Gpu {
  import opened GralTypes

  /** Position and, for meshes that carry them, texture coordinate of a vertex. */
  datatype VertexData = VertexData(pos: VertexPos, tex: Option<TexCoord3>)

  /** What one draw call hands to the device. */
  datatype Submission =
    | IndexedTriangles(vertices: seq<VertexPos>, texCoords: Option<seq<TexCoord3>>, indices: seq<VertexIndex>)
    | TriangleStrip(vertices: seq<VertexPos>)

  /** The data of vertex `slot`; slots outside the arrays read as a zero vertex. */
  function VertexOf(vs: seq<VertexPos>, ts: Option<seq<TexCoord3>>, slot: int): VertexData
  {
    if 0 <= slot < |vs| then
      VertexData(vs[slot], if ts.Some? && slot < |ts.value| then Some(ts.value[slot]) else None)
    else
      VertexData(VertexPos(0.0, 0.0, 0.0), None)
  }

  /** The vertices selected by an index list, in index order. */
  function IndexedStream(vs: seq<VertexPos>, ts: Option<seq<TexCoord3>>, ix: seq<VertexIndex>): (r: seq<VertexData>)
    ensures |r| == |ix|
  {
    if ix == [] then [] else IndexedStream(vs, ts, ix[..|ix| - 1]) + [VertexOf(vs, ts, ix[|ix| - 1])]
  }

  /** The vertex data one submission draws as triangles. */
  function SubmissionStream(s: Submission): seq<VertexData>
  {
    match s
    case IndexedTriangles(vs, ts, ix) => IndexedStream(vs, ts, ix)
    case TriangleStrip(_) => []
  }

  /** The vertex data of all indexed submissions, in submission order. */
  function StreamOf(subs: seq<Submission>): seq<VertexData>
  {
    if subs == [] then [] else StreamOf(subs[..|subs| - 1]) + SubmissionStream(subs[|subs| - 1])
  }

  /** Each index selects, in order, the data of the slot it names. */
  lemma {:induction false} IndexedStreamSelects(vs: seq<VertexPos>, ts: Option<seq<TexCoord3>>, ix: seq<VertexIndex>)
    ensures forall j :: 0 <= j < |ix| ==> IndexedStream(vs, ts, ix)[j] == VertexOf(vs, ts, ix[j])
    decreases |ix|
  {
    if ix != [] {
      IndexedStreamSelects(vs, ts, ix[..|ix| - 1]);
    }
  }

  lemma StreamOfAppend(subs: seq<Submission>, s: Submission)
    ensures StreamOf(subs + [s]) == StreamOf(subs) + SubmissionStream(s)
  {
    assert (subs + [s])[..|subs|] == subs;
  }

  /**
   * Two vertex stores that agree on every slot an index list selects give
   * the same stream for it.
   */
  lemma StreamAgrees(vs1: seq<VertexPos>, ts1: Option<seq<TexCoord3>>,
                     vs2: seq<VertexPos>, ts2: Option<seq<TexCoord3>>, ix: seq<VertexIndex>)
    requires forall j :: 0 <= j < |ix| ==> VertexOf(vs1, ts1, ix[j]) == VertexOf(vs2, ts2, ix[j])
    ensures IndexedStream(vs1, ts1, ix) == IndexedStream(vs2, ts2, ix)
  {
    IndexedStreamSelects(vs1, ts1, ix);
    IndexedStreamSelects(vs2, ts2, ix);
  }

  /** The GPU device: the draw submissions it has received. */
  class Device {
    var submissions: seq<Submission>

    constructor ()
      ensures submissions == []
    {
      submissions := [];
    }

    /** One draw call. */
    method Submit(s: Submission)
      modifies this
      ensures submissions == old(submissions) + [s]
    {
      submissions := submissions + [s];
    }
  }
}
