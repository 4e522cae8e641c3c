/**
 * Resources shared by every surface of the GPU backend, and the render state
 * and quad drawing that all drawing operations use.
 *
 * The shared resources are one reference-counted record: the first acquire
 * creates its vertex and index buffers and vertex/index data declarations,
 * later acquires only count; the last release destroys everything the record
 * holds, including the colour-ramp texture and the shaders other files load
 * into it lazily, and zeroes it. The model records every creation and
 * destruction of a GPU object in order, so that the record's pointer fields
 * can be checked against what is alive on the device.
 */
module Common {
  import opened Config
  import opened GralTypes
  import opened Gpu

  // ---------------------------------------------------------------------
  // The objects the record owns, and their history
  // ---------------------------------------------------------------------

  /** The record's pointer fields, one per GPU object it can own. */
  datatype GpuObject =
    | VertexBufPos | VertexBufTex | IndexBuf
    | VertexDataSource | VertexDataStencil | VertexDataSpline | IndexData
    | RampTexture | RadialShader | SplineFillShader

  /** One call into the device that creates or destroys an object. */
  datatype GpuEvent = Created(obj: GpuObject) | Destroyed(obj: GpuObject)

  /** The objects the first acquire creates and the last release destroys unconditionally. */
  const Buffers: set<GpuObject> :=
    {VertexBufPos, VertexBufTex, IndexBuf, VertexDataSource, VertexDataStencil, VertexDataSpline, IndexData}

  /** What the last release destroys unconditionally, in order. */
  const BufferDestructions: seq<GpuEvent> :=
    [Destroyed(VertexBufPos), Destroyed(VertexBufTex), Destroyed(IndexBuf), Destroyed(VertexDataSource),
     Destroyed(VertexDataStencil), Destroyed(VertexDataSpline), Destroyed(IndexData)]

  /** What the last release destroys of the lazily loaded objects: those whose field is set, in order. */
  function LoadedDestructions(held: set<GpuObject>): seq<GpuEvent>
  {
    (if RampTexture in held then [Destroyed(RampTexture)] else [])
    + (if RadialShader in held then [Destroyed(RadialShader)] else [])
    + (if SplineFillShader in held then [Destroyed(SplineFillShader)] else [])
  }

  /** The objects loaded on first use, each by the file that needs it. */
  predicate Lazy(o: GpuObject)
  {
    o == RampTexture || o == RadialShader || o == SplineFillShader
  }

  /** Whether object o is alive after a history: its last event is a creation. */
  function Live(log: seq<GpuEvent>, o: GpuObject): bool
  {
    if log == [] then false
    else if log[|log| - 1].obj == o then log[|log| - 1].Created?
    else Live(log[..|log| - 1], o)
  }

  /** Event e is legal after history log: only a dead object is created, only a live one destroyed. */
  predicate Legal(log: seq<GpuEvent>, e: GpuEvent)
  {
    e.Created? == !Live(log, e.obj)
  }

  /** A history in which no object is created twice without being destroyed, or destroyed twice. */
  predicate Sound(log: seq<GpuEvent>)
  {
    log == [] || (Sound(log[..|log| - 1]) && Legal(log[..|log| - 1], log[|log| - 1]))
  }

  /** Appending an event keeps a history sound exactly when the event is legal, and it changes only its own object. */
  lemma Append(log: seq<GpuEvent>, e: GpuEvent)
    ensures Sound(log + [e]) <==> Sound(log) && Legal(log, e)
    ensures Live(log + [e], e.obj) == e.Created?
    ensures forall o :: o != e.obj ==> Live(log + [e], o) == Live(log, o)
  {
    assert (log + [e])[..|log|] == log;
  }

  // ---------------------------------------------------------------------
  // The shared record
  // ---------------------------------------------------------------------

  /** The process-wide record of shared GPU resources. */
  class GpuResources {
    var refCount: nat
    var caps: Caps
    /** The pointer fields that are not null. */
    var held: set<GpuObject>
    /** Every creation and destruction of an object, in order. */
    var log: seq<GpuEvent>

    /** The statically zeroed record, before any acquire. */
    constructor ()
      ensures refCount == 0 && caps == 0 && held == {} && log == []
      ensures Valid()
    {
      refCount, caps, held, log := 0, 0, {}, [];
    }

    /**
     * A record with no reference is all zeros; a referenced one holds its
     * buffers; the pointer fields that are set are exactly the objects alive
     * on the device, and no object was ever created twice or freed twice.
     */
    ghost predicate Valid()
      reads this
    {
      && (refCount == 0 ==> held == {} && caps == 0)
      && (refCount > 0 ==> Buffers <= held)
      && Tracks()
    }

    /** The fields that are set are exactly the live objects, of a sound history. */
    ghost predicate Tracks()
      reads this
    {
      (forall o :: o in held <==> Live(log, o)) && Sound(log)
    }

    /** One object is created; its field is set. */
    method Create(o: GpuObject)
      requires Tracks() && o !in held
      modifies this`held, this`log
      ensures held == old(held) + {o} && log == old(log) + [Created(o)]
      ensures Tracks()
    {
      Append(log, Created(o));
      held, log := held + {o}, log + [Created(o)];
    }

    /** One object is destroyed. */
    method Destroy(o: GpuObject)
      requires Tracks() && o in held
      modifies this`held, this`log
      ensures held == old(held) - {o} && log == old(log) + [Destroyed(o)]
      ensures Tracks()
    {
      Append(log, Destroyed(o));
      held, log := held - {o}, log + [Destroyed(o)];
    }

    /**
     * Sets the record up with one reference: the device's capabilities
     * (fragment programs are not masked out, as that switch is off in the
     * configuration), and the buffers and vertex/index data declarations,
     * created in order.
     */
    method Init(deviceCaps: Caps)
      requires Valid() && refCount == 0
      modifies this
      ensures Valid() && refCount == 1
      ensures caps == deviceCaps && held == Buffers
      ensures log == old(log) + [Created(VertexBufPos), Created(VertexBufTex), Created(IndexBuf), Created(VertexDataSource),
                          Created(VertexDataStencil), Created(VertexDataSpline), Created(IndexData)]
    {
      refCount := 1;
      caps := deviceCaps;
      CreateBuffers();
      CreateDeclarations();
    }

    /** The position, texture-coordinate and index buffers, each a mesh's capacity long. */
    method CreateBuffers()
      requires Tracks() && held == {}
      modifies this`held, this`log
      ensures Tracks() && held == {VertexBufPos, VertexBufTex, IndexBuf}
      ensures log == old(log) + [Created(VertexBufPos), Created(VertexBufTex), Created(IndexBuf)]
    {
      Create(VertexBufPos);
      Create(VertexBufTex);
      Create(IndexBuf);
    }

    /**
     * The vertex declarations for sources, stencils and splines, and the
     * index declaration, each bound to the buffers.
     */
    method CreateDeclarations()
      requires Tracks() && held == {VertexBufPos, VertexBufTex, IndexBuf}
      modifies this`held, this`log
      ensures Tracks() && held == Buffers
      ensures log == old(log) + [Created(VertexDataSource), Created(VertexDataStencil),
                                 Created(VertexDataSpline), Created(IndexData)]
    {
      Create(VertexDataSource);
      Create(VertexDataStencil);
      Create(VertexDataSpline);
      Create(IndexData);
    }

    /**
     * Takes a reference: the first one initialises the record, later ones
     * only count. Either way the record is referenced afterwards.
     */
    method Acquire(deviceCaps: Caps)
      requires Valid()
      modifies this
      ensures Valid() && refCount > 0
      ensures refCount == (if old(refCount) == 0 then 1 else old(refCount) + 1)
      ensures old(refCount) > 0 ==> caps == old(caps) && held == old(held) && log == old(log)
      ensures old(refCount) == 0 ==>
                && caps == deviceCaps && held == Buffers
                && log == old(log) + [Created(VertexBufPos), Created(VertexBufTex), Created(IndexBuf), Created(VertexDataSource),
                          Created(VertexDataStencil), Created(VertexDataSpline), Created(IndexData)]
    {
      if refCount == 0 {
        Init(deviceCaps);
      } else {
        refCount := refCount + 1;
      }
    }

    /**
     * Drops a reference. While others remain only the count changes; the
     * last one destroys the buffers and data declarations, then the texture
     * and the shaders that were loaded, and zeroes the record, after which
     * no object the record owned is alive.
     */
    method Release()
      requires Valid() && refCount > 0
      modifies this
      ensures Valid() && refCount == old(refCount) - 1
      ensures old(refCount) > 1 ==> caps == old(caps) && held == old(held) && log == old(log)
      ensures old(refCount) == 1 ==>
                && caps == 0 && held == {}
                && log == old(log) + BufferDestructions + LoadedDestructions(old(held))
                && forall o :: !Live(log, o)
    {
      if refCount > 1 {
        refCount := refCount - 1;
        return;
      }
      ghost var held0 := held;
      DestroyBuffers();
      assert LoadedDestructions(held) == LoadedDestructions(held0);
      DestroyLoaded();
      refCount, caps := 0, 0;
    }

    /** The buffers and declarations, which a referenced record always holds. */
    method DestroyBuffers()
      requires Tracks() && Buffers <= held
      modifies this`held, this`log
      ensures Tracks() && held == old(held) - Buffers
      ensures log == old(log) + BufferDestructions
    {
      Destroy(VertexBufPos);
      Destroy(VertexBufTex);
      Destroy(IndexBuf);
      Destroy(VertexDataSource);
      Destroy(VertexDataStencil);
      Destroy(VertexDataSpline);
      Destroy(IndexData);
    }

    /** The texture and the shaders, each only if it was loaded. */
    method DestroyLoaded()
      requires Tracks() && held * Buffers == {}
      modifies this`held, this`log
      ensures Tracks() && held == {}
      ensures log == old(log) + LoadedDestructions(old(held))
    {
      if RampTexture in held {
        Destroy(RampTexture);
      }
      if RadialShader in held {
        Destroy(RadialShader);
      }
      if SplineFillShader in held {
        Destroy(SplineFillShader);
      }
    }

    /**
     * Loads a lazily created object the first time it is needed; the
     * record keeps it until the last release.
     */
    method LoadOnce(o: GpuObject)
      requires Valid() && refCount > 0 && Lazy(o)
      modifies this`held, this`log
      ensures Valid() && o in held
      ensures held == old(held) + {o}
      ensures log == old(log) + (if o in old(held) then [] else [Created(o)])
    {
      if o !in held {
        Create(o);
      }
    }
  }

  // ---------------------------------------------------------------------
  // Drawing a screen-aligned quad
  // ---------------------------------------------------------------------

  /** The quad's corners in the order the vertex buffer receives them. */
  function QuadStrip(left: real, top: real, right: real, bottom: real): (vs: seq<VertexPos>)
    ensures |vs| == 4
    ensures vs[0] == VertexPos(right, top, ZValue) && vs[1] == VertexPos(left, top, ZValue)
    ensures vs[2] == VertexPos(right, bottom, ZValue) && vs[3] == VertexPos(left, bottom, ZValue)
  {
    [VertexPos(right, top, ZValue), VertexPos(left, top, ZValue),
     VertexPos(right, bottom, ZValue), VertexPos(left, bottom, ZValue)]
  }

  /** Twice the signed area of the triangle a, b, c in the x-y plane. */
  function SignedArea2(a: VertexPos, b: VertexPos, c: VertexPos): real
  {
    (b.x - a.x) * (c.y - a.y) - (b.y - a.y) * (c.x - a.x)
  }

  /**
   * The strip's two triangles, (v0, v1, v2) and the second one in the
   * order a strip draws it, (v2, v1, v3), have the same orientation and
   * together cover the rectangle: their areas add up to its area. They
   * share the diagonal v1-v2, so every corner is drawn.
   */
  lemma QuadStripCoversRectangle(left: real, top: real, right: real, bottom: real)
    ensures var vs := QuadStrip(left, top, right, bottom);
            && SignedArea2(vs[0], vs[1], vs[2]) == SignedArea2(vs[2], vs[1], vs[3])
            && SignedArea2(vs[0], vs[1], vs[2]) + SignedArea2(vs[2], vs[1], vs[3])
               == 2.0 * (left - right) * (bottom - top)
  {
    var vs := QuadStrip(left, top, right, bottom);
    assert SignedArea2(vs[0], vs[1], vs[2]) == (left - right) * (bottom - top);
    assert SignedArea2(vs[2], vs[1], vs[3]) == (left - right) * (bottom - top);
  }

  /** Draws the quad as an unindexed strip of four vertices. */
  method RenderQuad(device: Device, left: real, top: real, right: real, bottom: real)
    modifies device
    ensures device.submissions == old(device.submissions) + [TriangleStrip(QuadStrip(left, top, right, bottom))]
  {
    var verts := [VertexPos(right, top, ZValue), VertexPos(left, top, ZValue),
                  VertexPos(right, bottom, ZValue), VertexPos(left, bottom, ZValue)];
    assert |verts| <= MaxVertices;
    device.Submit(TriangleStrip(verts));
  }

  // ---------------------------------------------------------------------
  // The depth test of the render state
  // ---------------------------------------------------------------------

  datatype CompareFunc = Less | LessEqual

  /** The depth-buffer parameters: test enabled, writes enabled, comparison. */
  datatype DepthParams = DepthParams(check: bool, write: bool, func: CompareFunc)

  /** A surface with a clip tests depth with LESS; otherwise the test is off (with LESS_EQUAL). Depth is never written. */
  function DepthState(hasClip: bool): (d: DepthParams)
    ensures d.check == hasClip && !d.write
    ensures d.func == Less <==> hasClip
  {
    if hasClip then DepthParams(true, false, Less) else DepthParams(false, false, LessEqual)
  }

  /** Whether a fragment at depth z passes against the stored depth. */
  predicate DepthPasses(d: DepthParams, z: real, stored: real)
  {
    !d.check || (match d.func case Less => z < stored case LessEqual => z <= stored)
  }

  /**
   * Without a clip every fragment is drawn; with one, a fragment in the
   * plane of the backend's vertices is drawn exactly where the stored
   * depth lies behind that plane, that is where the clip left it open.
   */
  lemma DepthStateClips(hasClip: bool, stored: real)
    ensures !hasClip ==> DepthPasses(DepthState(hasClip), ZValue, stored)
    ensures hasClip ==> (DepthPasses(DepthState(hasClip), ZValue, stored) <==> ZValue < stored)
  {
  }
}
