/**
 * The Ogre-side renderer that draws cairo canvases over viewports. It
 * keeps the canvases attached to each viewport (a multimap, whose entries
 * for one viewport stay in insertion order) and one cairo surface per
 * viewport that has a canvas, and listens to that viewport's render target
 * so that it can draw the canvases after each viewport update. The calls
 * it makes into Ogre and cairo are recorded as events.
 */
module OgreRenderer {
  import opened GralTypes

  /** Viewports, canvases and cairo surfaces are known by their addresses. */
  type Viewport = nat
  type Canvas = nat
  type SurfaceId = nat

  /** The calls made into Ogre's render system and into cairo. */
  datatype RenderEvent =
    | CreateSurface(vp: Viewport, surface: SurfaceId)
    | DestroySurface(surface: SurfaceId)
    | AddListener(vp: Viewport)
    | RemoveListener(vp: Viewport)
    | BeginFrame(vp: Viewport)
    | Draw(canvas: Canvas, surface: SurfaceId)
    | EndFrame

  // ---------------------------------------------------------------------
  // Construction
  // ---------------------------------------------------------------------

  /** A case-sensitive prefix test. */
  predicate StartsWith(s: string, prefix: string)
  {
    |prefix| <= |s| && s[..|prefix|] == prefix
  }

  /**
   * The renderer refuses a Direct3D render system whose floating-point
   * mode is "Fastest": cairo needs consistent precision. A missing option
   * reads as the empty value.
   */
  predicate RejectsRenderSystem(renderSystemName: string, floatingPointMode: string)
  {
    StartsWith(renderSystemName, "Direct3D") && floatingPointMode == "Fastest"
  }

  lemma RejectsOnlyFastestDirect3D()
    ensures RejectsRenderSystem("Direct3D9 Rendering Subsystem", "Fastest")
    ensures !RejectsRenderSystem("Direct3D9 Rendering Subsystem", "Consistent")
    ensures !RejectsRenderSystem("OpenGL Rendering Subsystem", "Fastest")
    ensures !RejectsRenderSystem("direct3D9 Rendering Subsystem", "Fastest")
  {
    assert "Direct3D9 Rendering Subsystem"[..8] == "Direct3D";
    assert "OpenGL Rendering Subsystem"[..8] != "Direct3D" by {
      assert "OpenGL Rendering Subsystem"[0] != "Direct3D"[0];
    }
    assert "direct3D9 Rendering Subsystem"[..8] != "Direct3D" by {
      assert "direct3D9 Rendering Subsystem"[0] != "Direct3D"[0];
    }
  }

  // ---------------------------------------------------------------------
  // The canvas multimap
  // ---------------------------------------------------------------------

  predicate Distinct(s: seq<Canvas>)
  {
    forall i, j :: 0 <= i < j < |s| ==> s[i] != s[j]
  }

  /** The canvases attached to a viewport, in the order they were added. */
  function CanvasesOf(m: map<Viewport, seq<Canvas>>, vp: Viewport): seq<Canvas>
  {
    if vp in m then m[vp] else []
  }

  /** The position of the first occurrence of c in s, or |s| when c does not occur. */
  function FirstIndex(s: seq<Canvas>, c: Canvas): (i: nat)
    ensures i <= |s| && (i == |s| <==> c !in s)
    ensures i < |s| ==> s[i] == c
    ensures c !in s[..i]
  {
    if s == [] then 0
    else if s[0] == c then 0
    else
      var j := FirstIndex(s[1..], c);
      assert s[..j + 1] == [s[0]] + s[1..][..j];
      j + 1
  }

  /** The multimap after adding a pair: unchanged if the pair is there, the canvas appended otherwise. */
  function AddPair(m: map<Viewport, seq<Canvas>>, vp: Viewport, c: Canvas): map<Viewport, seq<Canvas>>
  {
    if c in CanvasesOf(m, vp) then m else m[vp := CanvasesOf(m, vp) + [c]]
  }

  /**
   * The multimap after removing a pair: unchanged if the pair is not
   * there; otherwise its first entry erased, and the viewport's key gone
   * with its last canvas.
   */
  function RemovePair(m: map<Viewport, seq<Canvas>>, vp: Viewport, c: Canvas): map<Viewport, seq<Canvas>>
  {
    var list := CanvasesOf(m, vp);
    var i := FirstIndex(list, c);
    if i == |list| then m
    else
      var rest := list[..i] + list[i + 1..];
      if rest == [] then m - {vp} else m[vp := rest]
  }

  /** What a well-kept multimap looks like: no empty entry, no canvas twice under one viewport. */
  predicate WellKept(m: map<Viewport, seq<Canvas>>)
  {
    forall vp :: vp in m ==> m[vp] != [] && Distinct(m[vp])
  }

  /** Adding keeps the multimap well kept, touches only its viewport, and afterwards the pair is there. */
  lemma AddPairKeeps(m: map<Viewport, seq<Canvas>>, vp: Viewport, c: Canvas)
    requires WellKept(m)
    ensures WellKept(AddPair(m, vp, c))
    ensures c in CanvasesOf(AddPair(m, vp, c), vp)
    ensures AddPair(m, vp, c).Keys == m.Keys + {vp}
    ensures forall w :: w != vp ==> CanvasesOf(AddPair(m, vp, c), w) == CanvasesOf(m, w)
  {
    var list := CanvasesOf(m, vp);
    if c !in list {
      var list' := list + [c];
      forall i, j | 0 <= i < j < |list'| ensures list'[i] != list'[j] {
        if j == |list| { assert list'[i] == list[i]; }
      }
    }
  }

  /** Removing keeps the multimap well kept, touches only its viewport, and afterwards the pair is gone. */
  lemma RemovePairKeeps(m: map<Viewport, seq<Canvas>>, vp: Viewport, c: Canvas)
    requires WellKept(m)
    ensures WellKept(RemovePair(m, vp, c))
    ensures c !in CanvasesOf(RemovePair(m, vp, c), vp)
    ensures RemovePair(m, vp, c).Keys == if vp in m && m[vp] == [c] then m.Keys - {vp} else m.Keys
    ensures forall w :: w != vp ==> CanvasesOf(RemovePair(m, vp, c), w) == CanvasesOf(m, w)
  {
    var list := CanvasesOf(m, vp);
    var i := FirstIndex(list, c);
    if i < |list| {
      var rest := list[..i] + list[i + 1..];
      forall a, b | 0 <= a < b < |rest| ensures rest[a] != rest[b] {
        var a', b' := if a < i then a else a + 1, if b < i then b else b + 1;
        assert rest[a] == list[a'] && rest[b] == list[b'];
      }
      forall k | 0 <= k < |rest| ensures rest[k] != c {
        var k' := if k < i then k else k + 1;
        assert rest[k] == list[k'];
      }
      if rest == [] {
        assert |list| == 1 && list == [c];
      } else {
        assert list != [c];
      }
    }
  }

  /** Adding a pair that was not there and then removing it gives back the multimap. */
  lemma {:induction false} RemoveUndoesAdd(m: map<Viewport, seq<Canvas>>, vp: Viewport, c: Canvas)
    requires WellKept(m) && c !in CanvasesOf(m, vp)
    ensures RemovePair(AddPair(m, vp, c), vp, c) == m
  {
    var list := CanvasesOf(m, vp);
    var list' := list + [c];
    assert CanvasesOf(AddPair(m, vp, c), vp) == list';
    var i := FirstIndex(list', c);
    assert list'[|list|] == c;
    assert i == |list|;
    assert list'[..i] + list'[i + 1..] == list;
  }

  /** Adding is idempotent, and removing what is not there changes nothing. */
  lemma AddIdempotentRemoveAbsent(m: map<Viewport, seq<Canvas>>, vp: Viewport, c: Canvas)
    ensures AddPair(AddPair(m, vp, c), vp, c) == AddPair(m, vp, c)
    ensures c !in CanvasesOf(m, vp) ==> RemovePair(m, vp, c) == m
  {
    assert c in CanvasesOf(AddPair(m, vp, c), vp);
  }

  /** Looks for a canvas among a viewport's entries, as the range walk does. */
  method FindCanvas(list: seq<Canvas>, c: Canvas) returns (i: nat)
    ensures i == FirstIndex(list, c)
  {
    i := 0;
    while i < |list|
      invariant i <= |list| && c !in list[..i]
    {
      if list[i] == c {
        break;
      }
      assert list[..i + 1] == list[..i] + [list[i]];
      i := i + 1;
    }
  }

  // ---------------------------------------------------------------------
  // A viewport update
  // ---------------------------------------------------------------------

  /** The draws of the canvases that need rendering, in their order. */
  function Draws(list: seq<Canvas>, surface: SurfaceId, needsRendering: Canvas -> bool): seq<RenderEvent>
  {
    if list == [] then []
    else
      var last := list[|list| - 1];
      Draws(list[..|list| - 1], surface, needsRendering) + (if needsRendering(last) then [Draw(last, surface)] else [])
  }

  /**
   * What one viewport update does: nothing when no canvas needs
   * rendering; otherwise the render state is set up once, the canvases
   * that need it are drawn, and the frame is ended.
   */
  function UpdateEvents(vp: Viewport, list: seq<Canvas>, surface: SurfaceId, needsRendering: Canvas -> bool): seq<RenderEvent>
  {
    var draws := Draws(list, surface, needsRendering);
    if draws == [] then [] else [BeginFrame(vp)] + draws + [EndFrame]
  }

  function CountBegins(es: seq<RenderEvent>): nat
  {
    if es == [] then 0 else (if es[0].BeginFrame? then 1 else 0) + CountBegins(es[1..])
  }

  lemma {:induction false} CountBeginsAppend(a: seq<RenderEvent>, b: seq<RenderEvent>)
    ensures CountBegins(a + b) == CountBegins(a) + CountBegins(b)
  {
    if a != [] {
      assert (a + b)[0] == a[0];
      assert (a + b)[1..] == a[1..] + b;
      CountBeginsAppend(a[1..], b);
    } else {
      assert a + b == b;
    }
  }

  /** The draws are exactly the canvases of the list that need rendering, each onto the viewport's surface. */
  lemma {:induction false} DrawsAreTheNeedy(list: seq<Canvas>, surface: SurfaceId, needsRendering: Canvas -> bool)
    ensures forall e :: e in Draws(list, surface, needsRendering) ==>
              e.Draw? && e.surface == surface && e.canvas in list && needsRendering(e.canvas)
    ensures forall c :: c in list && needsRendering(c) ==> Draw(c, surface) in Draws(list, surface, needsRendering)
    ensures CountBegins(Draws(list, surface, needsRendering)) == 0
    ensures Draws(list, surface, needsRendering) == [] <==> forall c :: c in list ==> !needsRendering(c)
    decreases |list|
  {
    if list != [] {
      var init, last := list[..|list| - 1], list[|list| - 1];
      DrawsAreTheNeedy(init, surface, needsRendering);
      var tail := if needsRendering(last) then [Draw(last, surface)] else [];
      CountBeginsAppend(Draws(init, surface, needsRendering), tail);
      assert list == init + [last];
      forall c | c in list && needsRendering(c) ensures Draw(c, surface) in Draws(list, surface, needsRendering) {
        if c != last { assert c in init; }
      }
    }
  }

  /**
   * A viewport update sets up the render state at most once, only when
   * some canvas needs rendering, and ends the frame exactly when it set
   * it up, after every draw.
   */
  lemma UpdateBracketsDraws(vp: Viewport, list: seq<Canvas>, surface: SurfaceId, needsRendering: Canvas -> bool)
    ensures CountBegins(UpdateEvents(vp, list, surface, needsRendering)) <= 1
    ensures BeginFrame(vp) in UpdateEvents(vp, list, surface, needsRendering) <==> exists c :: c in list && needsRendering(c)
    ensures var u := UpdateEvents(vp, list, surface, needsRendering);
            u != [] ==> u[0] == BeginFrame(vp) && u[|u| - 1] == EndFrame
    ensures EndFrame in UpdateEvents(vp, list, surface, needsRendering) <==> BeginFrame(vp) in UpdateEvents(vp, list, surface, needsRendering)
  {
    var draws := Draws(list, surface, needsRendering);
    DrawsAreTheNeedy(list, surface, needsRendering);
    if draws != [] {
      CountBeginsAppend([BeginFrame(vp)] + draws, [EndFrame]);
      CountBeginsAppend([BeginFrame(vp)], draws);
      assert [BeginFrame(vp)][1..] == [];
      assert [EndFrame][1..] == [];
      assert exists c :: c in list && needsRendering(c);
    } else {
      assert forall c :: c in list ==> !needsRendering(c);
    }
  }

  /**
   * The walk over a viewport's canvases after its update: the render
   * state is set up at the first canvas that needs rendering, each such
   * canvas draws onto the surface, and the frame ends if it was begun.
   */
  method RenderCanvases(vp: Viewport, range: seq<Canvas>, surface: SurfaceId, needsRendering: Canvas -> bool)
      returns (calls: seq<RenderEvent>)
    ensures calls == UpdateEvents(vp, range, surface, needsRendering)
  {
    calls := [];
    var renderInited := false;
    for i := 0 to |range|
      invariant renderInited <==> Draws(range[..i], surface, needsRendering) != []
      invariant calls == if renderInited then [BeginFrame(vp)] + Draws(range[..i], surface, needsRendering) else []
    {
      assert range[..i + 1][..i] == range[..i];
      var canvas := range[i];
      if !needsRendering(canvas) {
        continue;
      }
      if !renderInited {
        calls := calls + [BeginFrame(vp)];
        renderInited := true;
      }
      calls := calls + [Draw(canvas, surface)];
    }
    assert range[..|range|] == range;
    if renderInited {
      calls := calls + [EndFrame];
    }
  }

  /** The calls of the teardown: for each viewport with a surface, the listener removed and the surface destroyed. */
  method TeardownCalls(held: map<Viewport, SurfaceId>) returns (calls: seq<RenderEvent>)
    ensures |calls| == 2 * |held|
    ensures forall vp :: vp in held ==> RemoveListener(vp) in calls && DestroySurface(held[vp]) in calls
  {
    var remaining := held.Keys;
    ghost var done: set<Viewport> := {};
    calls := [];
    while remaining != {}
      invariant remaining !! done && remaining + done == held.Keys
      invariant |calls| == 2 * |done|
      invariant forall vp :: vp in done ==> RemoveListener(vp) in calls && DestroySurface(held[vp]) in calls
      decreases remaining
    {
      var vp :| vp in remaining;
      calls := calls + [RemoveListener(vp), DestroySurface(held[vp])];
      remaining := remaining - {vp};
      done := done + {vp};
    }
  }

  // ---------------------------------------------------------------------
  // The renderer
  // ---------------------------------------------------------------------

  class CairoRenderer {
    /** The canvases of each viewport. */
    var canvases: map<Viewport, seq<Canvas>>
    /** The cairo surface of each viewport. */
    var surfaces: map<Viewport, SurfaceId>
    /** The viewports whose render target the renderer listens to. */
    var listening: set<Viewport>
    /** The next surface cairo hands out; every surface the renderer holds is older. */
    var nextSurface: SurfaceId
    var events: seq<RenderEvent>

    /**
     * A viewport has a surface, and is listened to, exactly when it has a
     * canvas; each viewport's surface is its own.
     */
    ghost predicate Valid()
      reads this
    {
      && canvases.Keys == surfaces.Keys && surfaces.Keys == listening
      && WellKept(canvases)
      && SurfacesFresh()
    }

    ghost predicate SurfacesFresh()
      reads this
    {
      && (forall vp :: vp in surfaces ==> surfaces[vp] < nextSurface)
      && (forall v, w :: v in surfaces && w in surfaces && v != w ==> surfaces[v] != surfaces[w])
    }

    constructor ()
      ensures Valid() && canvases == map[] && events == []
    {
      canvases, surfaces, listening := map[], map[], {};
      nextSurface, events := 0, [];
    }

    /** The renderer over a render system, or none when the render system is one it refuses. */
    static method Create(renderSystemName: string, floatingPointMode: string) returns (r: Option<CairoRenderer>)
      ensures r.None? <==> RejectsRenderSystem(renderSystemName, floatingPointMode)
      ensures r.Some? ==> fresh(r.value) && r.value.Valid() && r.value.canvases == map[] && r.value.events == []
    {
      if StartsWith(renderSystemName, "Direct3D") && floatingPointMode == "Fastest" {
        return None;
      }
      var renderer := new CairoRenderer();
      return Some(renderer);
    }

    /** Creates the viewport's surface and starts listening to its render target. */
    method AttachToViewport(vp: Viewport)
      requires vp !in surfaces && SurfacesFresh()
      modifies this`surfaces, this`listening, this`nextSurface, this`events
      ensures SurfacesFresh()
      ensures surfaces == old(surfaces)[vp := old(nextSurface)] && nextSurface == old(nextSurface) + 1
      ensures listening == old(listening) + {vp}
      ensures events == old(events) + [CreateSurface(vp, old(nextSurface)), AddListener(vp)]
    {
      var surface := nextSurface;
      nextSurface := nextSurface + 1;
      events := events + [CreateSurface(vp, surface)];
      surfaces := surfaces[vp := surface];
      events := events + [AddListener(vp)];
      listening := listening + {vp};
    }

    /** Stops listening to the viewport's render target and destroys its surface. */
    method DetachFromViewport(vp: Viewport)
      requires vp in surfaces && SurfacesFresh()
      modifies this`surfaces, this`listening, this`events
      ensures SurfacesFresh()
      ensures surfaces == old(surfaces) - {vp} && listening == old(listening) - {vp}
      ensures events == old(events) + [RemoveListener(vp), DestroySurface(old(surfaces)[vp])]
    {
      events := events + [RemoveListener(vp)];
      listening := listening - {vp};
      events := events + [DestroySurface(surfaces[vp])];
      surfaces := surfaces - {vp};
    }

    /** Attaches a canvas to a viewport; the viewport's first canvas attaches the renderer to it. */
    method AddCanvas(canvas: Canvas, vp: Viewport)
      requires Valid()
      modifies this
      ensures Valid()
      ensures canvases == AddPair(old(canvases), vp, canvas)
      ensures vp !in old(canvases) ==>
                && surfaces == old(surfaces)[vp := old(nextSurface)]
                && events == old(events) + [CreateSurface(vp, old(nextSurface)), AddListener(vp)]
      ensures vp in old(canvases) ==> surfaces == old(surfaces) && events == old(events)
    {
      AddPairKeeps(canvases, vp, canvas);
      var range := CanvasesOf(canvases, vp);
      var i := FindCanvas(range, canvas);
      if i == |range| {
        canvases := canvases[vp := range + [canvas]];
        if range == [] {
          AttachToViewport(vp);
        }
      }
    }

    /** Detaches a canvas from a viewport; its last canvas detaches the renderer from it. */
    method RemoveCanvas(canvas: Canvas, vp: Viewport)
      requires Valid()
      modifies this
      ensures Valid()
      ensures canvases == RemovePair(old(canvases), vp, canvas)
      ensures vp in old(canvases) && vp !in canvases ==>
                && surfaces == old(surfaces) - {vp}
                && events == old(events) + [RemoveListener(vp), DestroySurface(old(surfaces)[vp])]
      ensures vp !in old(canvases) || vp in canvases ==> surfaces == old(surfaces) && events == old(events)
    {
      RemovePairKeeps(canvases, vp, canvas);
      var range := CanvasesOf(canvases, vp);
      var i := FindCanvas(range, canvas);
      if i != |range| {
        var rest := range[..i] + range[i + 1..];
        if rest == [] {
          canvases := canvases - {vp};
          DetachFromViewport(vp);
        } else {
          canvases := canvases[vp := rest];
        }
      }
    }

    /**
     * After a viewport update, draws the viewport's canvases that need
     * rendering onto its surface, setting the render state up before the
     * first and ending the frame after the last. Whether a canvas needs
     * rendering is the canvas's own answer.
     */
    method PostViewportUpdate(vp: Viewport, needsRendering: Canvas -> bool)
      requires Valid()
      modifies this`events
      ensures events == old(events) + UpdateEvents(vp, CanvasesOf(canvases, vp), if vp in surfaces then surfaces[vp] else 0, needsRendering)
    {
      var range := CanvasesOf(canvases, vp);
      var surface := if vp in surfaces then surfaces[vp] else 0;
      var calls := RenderCanvases(vp, range, surface, needsRendering);
      events := events + calls;
    }

    /**
     * Tearing the renderer down: for every viewport it holds a surface
     * of, it stops listening to the render target and destroys the
     * surface. The calls are collected viewport by viewport and logged
     * together; the maps themselves go with the object.
     */
    method Dispose()
      requires Valid()
      modifies this`listening, this`events
      ensures listening == {}
      ensures |events| == |old(events)| + 2 * |old(surfaces)|
      ensures forall vp :: vp in surfaces ==>
                RemoveListener(vp) in events[|old(events)|..] && DestroySurface(surfaces[vp]) in events[|old(events)|..]
    {
      var calls := TeardownCalls(surfaces);
      events := events + calls;
      listening := {};
      assert events[|old(events)|..] == calls;
    }
  }
}
