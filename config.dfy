/**
 * Build-time configuration of the cairo GPU backend: buffer capacities, the
 * colour-ramp texture width, the z coordinate of every emitted vertex and the
 * feature switches.
 */
module Config {
  /** Number of triangles one flush of a mesh can hold. */
  const MaxTrigs: nat := 2048
  /** Capacity of the vertex (and texture-coordinate) arrays of a mesh. */
  const MaxVertices: nat := MaxTrigs * 3
  /** Capacity of the index array of a mesh. */
  const MaxIndices: nat := MaxTrigs * 3

  /** Width in pixels of the one-dimensional gradient texture. */
  const ColorRampTexWidth: nat := 1024

  /** Every vertex the backend emits lies in the plane z = 0. */
  const ZValue: real := 0.0

  /** The fragment-shader switch is commented out in the configuration. */
  const DisableFragmentShaders: bool := false
  /** Curves are flattened on the CPU instead of being filled on the GPU. */
  const DisableGpuSplineRendering: bool := true
  /** Shaders are compiled from sources embedded in the executable. */
  const EmbedShaderSource: bool := true

  /** Both capacities are 2048 * 3 = 6144 entries, a whole number of triangles. */
  lemma CapacitiesHoldWholeTriangles()
    ensures MaxVertices == 6144 && MaxIndices == 6144
    ensures MaxIndices % 3 == 0 && MaxIndices / 3 == MaxTrigs
  {
  }

  /**
   * When callers always emit whole triangles, the index count sits on a
   * multiple of 3 between triangles, so the first two indices of the next
   * triangle can never fill the array: a flush triggered by a full index
   * array always falls on a triangle boundary.
   */
  lemma FlushFallsOnTriangleBoundary(count: nat)
    requires count % 3 == 0 && count < MaxIndices
    ensures count + 2 < MaxIndices
  {
  }

  /** Residues modulo 3 of an index count a few indices on. */
  lemma IndexResidues(count: nat)
    ensures (count + 1) % 3 == (count % 3 + 1) % 3
    ensures (count + 2) % 3 == (count % 3 + 2) % 3
    ensures (count + 3) % 3 == count % 3
  {
  }

  /**
   * The residue modulo 3 of an index count n one index on from count, or
   * after a flush that the index which completed a triangle caused.
   */
  lemma NextResidue(count: nat, n: nat, r: nat)
    requires count % 3 == r && (n == count + 1 || (n == 0 && r == 2))
    ensures n % 3 == (if r == 2 then 0 else r + 1)
  {
  }

  /** Three indices on from a triangle boundary, or flushed, the count is on a boundary again. */
  lemma TriangleDone(count: nat, n: nat)
    requires count % 3 == 0 && (n == count + 3 || n == 0)
    ensures n % 3 == 0
  {
  }
}
