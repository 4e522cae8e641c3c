/**
 * The append-only buffer of cubic splines a mesh collects for the GPU curve
 * pass: a chain of chunks, the first one embedded in the buffer, each later
 * one with twice the capacity of the chunk before it.
 */
module SplinesBuffers {
  import opened GralTypes

  /** One chunk of the chain: its capacity and the splines stored so far. */
  datatype Chunk = Chunk(bufSize: nat, splines: seq<Spline>)

  /** The splines of a chain, chunk after chunk. */
  function Flatten(chunks: seq<Chunk>): seq<Spline>
  {
    if |chunks| == 0 then [] else Flatten(chunks[..|chunks| - 1]) + chunks[|chunks| - 1].splines
  }

  /**
   * The shape of a chain built by init and add: the head has the computed
   * capacity, every later chunk doubles its predecessor, no chunk is over
   * its capacity and a chunk is only followed by another once it is full.
   */
  ghost predicate ChainShape(chunks: seq<Chunk>)
  {
    && |chunks| >= 1
    && chunks[0].bufSize == HeadChunkCapacity
    && (forall i :: 0 < i < |chunks| ==> chunks[i].bufSize == 2 * chunks[i - 1].bufSize)
    && (forall i :: 0 <= i < |chunks| ==> HeadChunkCapacity <= chunks[i].bufSize)
    && (forall i :: 0 <= i < |chunks| ==> |chunks[i].splines| <= chunks[i].bufSize)
    && (forall i :: 0 <= i < |chunks| - 1 ==> |chunks[i].splines| == chunks[i].bufSize)
  }

  /** The tail chunk cannot take another spline. */
  predicate TailFull(chunks: seq<Chunk>)
    requires |chunks| >= 1
  {
    |chunks[|chunks| - 1].splines| + 1 > chunks[|chunks| - 1].bufSize
  }

  lemma {:induction false} FlattenCoversHead(chunks: seq<Chunk>)
    requires |chunks| >= 1
    ensures |Flatten(chunks)| >= |chunks[0].splines|
    ensures |chunks| == 1 ==> Flatten(chunks) == chunks[0].splines
    decreases |chunks|
  {
    if |chunks| == 1 {
      assert Flatten(chunks[..0]) == [];
    } else {
      FlattenCoversHead(chunks[..|chunks| - 1]);
    }
  }

  /**
   * The head chunk is empty exactly when the whole buffer is: a second chunk
   * exists only once the head is full, and the head's capacity is not 0.
   */
  lemma HeadEmptyIffBufferEmpty(chunks: seq<Chunk>)
    requires ChainShape(chunks)
    ensures |chunks[0].splines| == 0 <==> Flatten(chunks) == []
  {
    FlattenCoversHead(chunks);
    if |chunks| > 1 {
      assert |chunks[0].splines| == HeadChunkCapacity > 0;
    }
  }

  /** Storing into a tail with room keeps the shape and appends to the contents. */
  lemma StoreInTail(chunks: seq<Chunk>, spline: Spline)
    requires ChainShape(chunks) && !TailFull(chunks)
    ensures var n := |chunks|;
            var c := chunks[n - 1 := Chunk(chunks[n - 1].bufSize, chunks[n - 1].splines + [spline])];
            ChainShape(c) && Flatten(c) == Flatten(chunks) + [spline]
  {
    var n := |chunks|;
    var c := chunks[n - 1 := Chunk(chunks[n - 1].bufSize, chunks[n - 1].splines + [spline])];
    assert c[..n - 1] == chunks[..n - 1];
  }

  /** Linking a chunk of double capacity after a full tail keeps the shape. */
  lemma LinkChunk(chunks: seq<Chunk>, spline: Spline)
    requires ChainShape(chunks) && TailFull(chunks)
    ensures var c := chunks + [Chunk(2 * chunks[|chunks| - 1].bufSize, [spline])];
            ChainShape(c) && Flatten(c) == Flatten(chunks) + [spline]
  {
    var n := |chunks|;
    var c := chunks + [Chunk(2 * chunks[n - 1].bufSize, [spline])];
    assert c[..n] == chunks;
  }

  class SplinesBuffer {
    /** The chain from the embedded head to the tail. */
    var chunks: seq<Chunk>
    /** Every spline added since init, in insertion order. */
    ghost var Contents: seq<Spline>

    ghost predicate Valid()
      reads this
    {
      ChainShape(chunks) && Contents == Flatten(chunks)
    }

    /** tail = head, an empty head of the computed capacity, no next chunk. */
    constructor Init()
      ensures Valid() && Contents == []
      ensures chunks == [Chunk(HeadChunkCapacity, [])]
    {
      chunks := [Chunk(HeadChunkCapacity, [])];
      Contents := [];
      new;
      assert Flatten(chunks[..0]) == [];
    }

    /**
     * Stores the spline at the tail's next free slot. A full tail first gets
     * a successor of twice its capacity; when that allocation fails
     * (`allocOk` false) the buffer is left as it was and NO_MEMORY returned.
     */
    method Add(spline: Spline, allocOk: bool) returns (status: Status)
      requires Valid()
      modifies this
      ensures Valid()
      ensures status == Success || status == NoMemory
      ensures status == NoMemory <==> TailFull(old(chunks)) && !allocOk
      ensures status == Success ==> Contents == old(Contents) + [spline]
      ensures status == NoMemory ==> chunks == old(chunks) && Contents == old(Contents)
      ensures status == Success && !TailFull(old(chunks)) ==> |chunks| == |old(chunks)|
      ensures status == Success && TailFull(old(chunks)) ==>
                chunks == old(chunks) + [Chunk(2 * old(chunks)[|old(chunks)| - 1].bufSize, [spline])]
    {
      var n := |chunks|;
      var tail := chunks[n - 1];
      if |tail.splines| + 1 > tail.bufSize {
        if !allocOk {
          return NoMemory;
        }
        // link a chunk of twice the tail's capacity and store into it
        assert TailFull(chunks);
        var linked := chunks + [Chunk(2 * tail.bufSize, [spline])];
        LinkChunk(chunks, spline);
        chunks, Contents := linked, Contents + [spline];
      } else {
        assert !TailFull(chunks);
        var stored := chunks[n - 1 := Chunk(tail.bufSize, tail.splines + [spline])];
        StoreInTail(chunks, spline);
        chunks, Contents := stored, Contents + [spline];
      }
      status := Success;
    }

    /** Looks only at the head chunk's count. */
    function IsEmpty(): (empty: bool)
      requires Valid()
      reads this
      ensures empty <==> Contents == []
    {
      HeadEmptyIffBufferEmpty(chunks);
      |chunks[0].splines| == 0
    }

    /**
     * Frees every chunk after the head, one by one along the chain, and
     * restores the state after init. The C function returns nothing; the
     * count `freed` exists only to witness that the walk along the chain
     * visits every chunk after the head exactly once.
     */
    method Fini() returns (freed: nat)
      requires Valid()
      modifies this
      ensures Valid() && Contents == []
      ensures chunks == [Chunk(HeadChunkCapacity, [])]
      ensures freed == |old(chunks)| - 1
    {
      var rest := chunks[1..];
      freed := 0;
      while rest != []
        invariant freed + |rest| == |chunks| - 1
        decreases |rest|
      {
        rest := rest[1..];
        freed := freed + 1;
      }
      chunks := [Chunk(chunks[0].bufSize, [])];
      Contents := [];
      assert Flatten(chunks[..0]) == [];
    }
  }
}
