/**
 * The shared data types of the backend: index width, vectors, vertices,
 * bounding boxes, cubic splines, points in cairo's fixed-point format, result
 * codes and the capability bit test.
 */
module GralTypes {
  import opened Config

  // ---------------------------------------------------------------------
  // Index width
  // ---------------------------------------------------------------------

  /** Short (16-bit) indices are chosen when every vertex slot fits in them. */
  const UseShortIndices: bool := MaxVertices <= 0x10000

  /** One past the largest value the chosen index type can hold. */
  const IndexLimit: int := if UseShortIndices then 0x1_0000 else 0x1_0000_0000

  /** An index into a mesh's vertex arrays, as stored in its index array. */
  type VertexIndex = i: int | 0 <= i < IndexLimit

  /** With 6144 vertex slots the 16-bit width is selected and every slot fits. */
  lemma SlotFitsIndexType(slot: nat)
    requires slot < MaxVertices
    ensures UseShortIndices && IndexLimit == 0x1_0000
    ensures slot < IndexLimit
  {
  }

  datatype Option<T> = None | Some(value: T)

  // ---------------------------------------------------------------------
  // Geometry values
  // ---------------------------------------------------------------------

  datatype Vector2 = Vector2(x: real, y: real)
  datatype Vector3 = Vector3(x: real, y: real, z: real)

  /** Position of a mesh vertex. */
  datatype VertexPos = VertexPos(x: real, y: real, z: real)
  /** Three-component texture coordinate of a mesh vertex. */
  datatype TexCoord3 = TexCoord3(u: real, v: real, w: real)

  datatype BoundBox = BoundBox(minX: real, minY: real, maxX: real, maxY: real)
  {
    predicate Contains(x: real, y: real)
    {
      minX <= x <= maxX && minY <= y <= maxY
    }
  }

  /** A cubic Bezier curve: exactly four knots. */
  datatype Spline = Spline(k0: Vector2, k1: Vector2, k2: Vector2, k3: Vector2)
  {
    function Knots(): (r: seq<Vector2>)
      ensures |r| == 4 && r[0] == k0 && r[3] == k3
    {
      [k0, k1, k2, k3]
    }
  }

  // ---------------------------------------------------------------------
  // cairo fixed-point points
  // ---------------------------------------------------------------------

  /** Number of fractional bits of cairo's fixed-point coordinates (24.8). */
  const FixedFracBits: nat := 8

  /** A device-space point in cairo fixed-point coordinates. */
  datatype Point = Point(x: int, y: int)

  function FixedToDouble(f: int): (r: real)
    ensures r * 256.0 == f as real
  {
    f as real / 256.0
  }

  function PointToVector(p: Point): Vector2
  {
    Vector2(FixedToDouble(p.x), FixedToDouble(p.y))
  }

  /** Distinct fixed-point values stay distinct after conversion. */
  lemma FixedToDoubleInjective(a: int, b: int)
    requires FixedToDouble(a) == FixedToDouble(b)
    ensures a == b
  {
    assert FixedToDouble(a) * 256.0 == a as real;
    assert FixedToDouble(b) * 256.0 == b as real;
  }

  // ---------------------------------------------------------------------
  // Status codes
  // ---------------------------------------------------------------------

  /** The result codes the core returns. */
  datatype Status = Success | NoMemory | Unsupported | Degenerate
  {
    predicate IsSuccess() { this == Success }
  }

  // ---------------------------------------------------------------------
  // Capabilities
  // ---------------------------------------------------------------------

  type Caps = bv32

  /** Capability bit 1: the device runs fragment programs. */
  const CapFragmentProgram: Caps := 1 << 1

  /** A capability is present iff its bit is set in the device's mask. */
  function HasCapability(caps: Caps, cap: Caps): (r: bool)
  {
    caps & cap != 0
  }

  lemma HasCapabilityBitTest(caps: Caps)
    ensures HasCapability(caps, CapFragmentProgram) <==> (caps >> 1) & 1 == 1
  {
  }

  // ---------------------------------------------------------------------
  // Capacity of the embedded head chunk of a splines buffer
  // ---------------------------------------------------------------------

  /** Size in bytes of one spline: four knots of two 4-byte floats. */
  const SplineBytes: nat := 4 * 2 * 4

  /** Size of a chunk header: next, prev, buf_size, num_splines, splines. */
  function ChunkHeaderBytes(ptrBytes: nat): nat
  {
    2 * ptrBytes + 4 + 4 + ptrBytes
  }

  /**
   * Capacity of the head chunk, chosen so that the whole buffer (tail
   * pointer, header and embedded splines) fits in 4 KiB.
   */
  function SplineBufSize(ptrBytes: nat): nat
    requires 4 * 1024 >= ptrBytes + ChunkHeaderBytes(ptrBytes)
  {
    (4 * 1024 - ptrBytes - ChunkHeaderBytes(ptrBytes)) / SplineBytes
  }

  /** Bytes occupied by a splines buffer whose head chunk holds `cap` splines. */
  function SplinesBufferBytes(ptrBytes: nat, cap: nat): nat
  {
    ptrBytes + ChunkHeaderBytes(ptrBytes) + cap * SplineBytes
  }

  /**
   * The computed capacity is the largest one for which the buffer fits in
   * 4 KiB: 126 splines with 8-byte pointers, 127 with 4-byte pointers.
   */
  lemma SplineBufSizeFits(ptrBytes: nat)
    requires ptrBytes == 4 || ptrBytes == 8
    ensures SplinesBufferBytes(ptrBytes, SplineBufSize(ptrBytes)) <= 4 * 1024
    ensures SplinesBufferBytes(ptrBytes, SplineBufSize(ptrBytes) + 1) > 4 * 1024
    ensures SplineBufSize(ptrBytes) == (if ptrBytes == 8 then 126 else 127)
  {
  }

  /** The model fixes a 64-bit target. */
  const PointerBytes: nat := 8
  const HeadChunkCapacity: nat := SplineBufSize(PointerBytes)
}
