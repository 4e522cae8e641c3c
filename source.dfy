/**
 * Setting a cairo pattern as the source of the next draw. Gradients are
 * drawn through a one-dimensional colour-ramp texture, 1024 pixels wide:
 * the pixel of each colour stop is its offset times the width, the pixels
 * between two stops interpolate their colours, and the pixels outside the
 * first and last stops are padded as the pattern's extend mode says. The
 * texture is addressed with the matching wrap mode.
 */
module Source {
  import opened Config
  import opened GralTypes
  import opened GralColor
  import opened GralMath
  import opened Common

  /** A packed 32-bit pixel of the ramp texture. */
  type Argb = bv32

  /** cairo's extend modes. */
  datatype Extend = ExtendNone | ExtendRepeat | ExtendReflect | ExtendPad

  /** The texture unit's addressing modes. */
  datatype Addressing = Border | Clamp | Wrap | Mirror

  /** A gradient stop: an offset in [0, 1] and a colour. */
  datatype ColorStop = ColorStop(offset: real, color: Color)

  /** The pattern kinds cairo can hand the backend, with what the ramp needs of them. */
  datatype Pattern =
    | Linear(stops: seq<ColorStop>, extend: Extend)
    | Radial(stops: seq<ColorStop>, extend: Extend)
    | SurfacePattern
    | Solid(color: Color)

  // ---------------------------------------------------------------------
  // The source-type dispatch and the texture addressing
  // ---------------------------------------------------------------------

  /** What the texture unit of a gradient is set to: its addressing and, for a border, the border colour. */
  datatype RampUnit = RampUnit(addressing: Addressing, border: Option<Color>)

  /** The addressing that reproduces an extend mode outside the texture. */
  function TextureAddressing(extend: Extend): (a: Addressing)
  {
    match extend
    case ExtendNone => Border
    case ExtendPad => Clamp
    case ExtendRepeat => Wrap
    case ExtendReflect => Mirror
  }

  /** The addressing is set on all three axes; only a border gets a colour, black. */
  function RampUnitFor(extend: Extend): (u: RampUnit)
    ensures u.addressing == TextureAddressing(extend)
    ensures u.border.Some? <==> u.addressing == Border
    ensures u.border.Some? ==> u.border.value == StockColor(StockBlack)
  {
    var a := TextureAddressing(extend);
    RampUnit(a, if a == Border then Some(StockColor(StockBlack)) else None)
  }

  /**
   * Each extend mode has its own addressing, so the mapping can be
   * inverted; NONE is the only mode drawn with a border colour.
   */
  lemma TextureAddressingIsOneToOne(e1: Extend, e2: Extend)
    ensures TextureAddressing(e1) == TextureAddressing(e2) <==> e1 == e2
    ensures TextureAddressing(e1) == Border <==> e1 == ExtendNone
    ensures RampUnitFor(e1).border.Some? <==> e1 == ExtendNone
  {
  }

  /** The texture unit a gradient pattern is drawn with, and none for the others. */
  function SourceUnit(p: Pattern): Option<RampUnit>
  {
    match p
    case Linear(_, e) => Some(RampUnitFor(e))
    case Radial(_, e) => Some(RampUnitFor(e))
    case SurfacePattern => None
    case Solid(_) => None
  }

  /** Surface patterns are not supported as a source; the others are. */
  function SetSourceStatus(p: Pattern): (status: Status)
  {
    if p.SurfacePattern? then Unsupported else Success
  }

  /**
   * Exactly the surface pattern is refused; a gradient gets a colour-ramp
   * unit, and a solid colour does not.
   */
  lemma SetSourceDispatch(p: Pattern)
    ensures SetSourceStatus(p) == Unsupported <==> p.SurfacePattern?
    ensures SetSourceStatus(p) == Success <==> !p.SurfacePattern?
    ensures SourceUnit(p).Some? <==> p.Linear? || p.Radial?
    ensures p.Linear? || p.Radial? ==> SourceUnit(p) == Some(RampUnitFor(p.extend))
  {
  }

  // ---------------------------------------------------------------------
  // The colour ramp as a function of the stops
  // ---------------------------------------------------------------------

  const Width: nat := ColorRampTexWidth

  /** The stops cairo hands over: at least one, every offset in [0, 1]. */
  predicate WellFormedStops(stops: seq<ColorStop>)
  {
    |stops| > 0 && forall i :: 0 <= i < |stops| ==> 0.0 <= stops[i].offset <= 1.0
  }

  /** cairo keeps stops in order of offset. */
  predicate Sorted(stops: seq<ColorStop>)
  {
    forall i, j :: 0 <= i <= j < |stops| ==> stops[i].offset <= stops[j].offset
  }

  /**
   * The pixel of an offset: the offset times the width, truncated, with an
   * offset of 1 moved onto the last pixel.
   */
  function PixelOf(offset: real): (p: nat)
    requires 0.0 <= offset <= 1.0
    ensures p < Width
    ensures p == (offset * Width as real).Floor || (offset == 1.0 && p == Width - 1)
  {
    var f := (offset * Width as real).Floor;
    assert 0 <= f <= Width by {
      assert 0.0 <= offset * Width as real <= Width as real;
    }
    if f == Width then f - 1 else f
  }

  /** A larger offset never lands on an earlier pixel. */
  lemma PixelOfMonotone(a: real, b: real)
    requires 0.0 <= a <= b <= 1.0
    ensures PixelOf(a) <= PixelOf(b)
  {
    var fa, fb := (a * Width as real).Floor, (b * Width as real).Floor;
    assert a * Width as real <= b * Width as real;
    assert fa <= fb;
  }

  function FirstPixel(stops: seq<ColorStop>): nat
    requires WellFormedStops(stops)
  {
    PixelOf(stops[0].offset)
  }

  function LastPixel(stops: seq<ColorStop>): nat
    requires WellFormedStops(stops)
  {
    PixelOf(stops[|stops| - 1].offset)
  }

  /**
   * The pixels of the left pad (before the first stop's) and of the right
   * pad (after the last stop's). NONE leaves them transparent; PAD and
   * REFLECT repeat the end colours; REPEAT interpolates from the near end's
   * colour towards the far end's, by the distance over the whole pad, so
   * the ramp wraps round continuously.
   */
  function PadPixel(stops: seq<ColorStop>, extend: Extend, toArgb: Color -> Argb, i: nat): Argb
    requires WellFormedStops(stops) && i < Width && (i < FirstPixel(stops) || i > LastPixel(stops))
  {
    var c0, cn := stops[0].color, stops[|stops| - 1].color;
    match extend
    case ExtendNone => 0
    case ExtendPad => if i > LastPixel(stops) then toArgb(cn) else toArgb(c0)
    case ExtendReflect => if i > LastPixel(stops) then toArgb(cn) else toArgb(c0)
    case ExtendRepeat =>
      if i > LastPixel(stops) then RepeatRight(stops, toArgb, i) else RepeatLeft(stops, toArgb, i)
  }

  /** The number of pad pixels on both sides together. */
  function TotalPad(stops: seq<ColorStop>): nat
    requires WellFormedStops(stops)
  {
    FirstPixel(stops) + (Width - LastPixel(stops) - 1)
  }

  /** A REPEAT left-pad pixel: from the first stop's colour towards the last's, by its distance over the whole pad. */
  function RepeatLeft(stops: seq<ColorStop>, toArgb: Color -> Argb, i: nat): Argb
    requires WellFormedStops(stops) && i < FirstPixel(stops)
  {
    toArgb(ColorLerp(stops[0].color, stops[|stops| - 1].color,
                     (FirstPixel(stops) - i) as real / TotalPad(stops) as real))
  }

  /** A REPEAT right-pad pixel: from the last stop's colour towards the first's. */
  function RepeatRight(stops: seq<ColorStop>, toArgb: Color -> Argb, i: nat): Argb
    requires WellFormedStops(stops) && LastPixel(stops) < i < Width
  {
    toArgb(ColorLerp(stops[|stops| - 1].color, stops[0].color,
                     (i - LastPixel(stops)) as real / TotalPad(stops) as real))
  }

  /** The texture after the pad loops: the pads written, the pixels between the end stops as they were. */
  function Padded(d: seq<Argb>, stops: seq<ColorStop>, extend: Extend, toArgb: Color -> Argb): (r: seq<Argb>)
    requires |d| == Width && WellFormedStops(stops)
    ensures |r| == Width
  {
    seq(Width, i requires 0 <= i < Width =>
      if i < FirstPixel(stops) || i > LastPixel(stops) then PadPixel(stops, extend, toArgb, i) else d[i])
  }

  /** The pixel p strictly after `left` and up to `right`, interpolated between the two stops' colours. */
  function SegmentPixel(left: nat, right: nat, leftCol: Color, rightCol: Color, toArgb: Color -> Argb, p: nat): Argb
    requires left < p <= right
  {
    toArgb(ColorLerp(leftCol, rightCol, (p - left) as real / (right - left) as real))
  }

  /** One segment of the stop pass: the pixels in (left, right] interpolated, the others as they were. */
  function Segment(d: seq<Argb>, left: nat, right: nat, leftCol: Color, rightCol: Color, toArgb: Color -> Argb): (r: seq<Argb>)
    ensures |r| == |d|
  {
    seq(|d|, p requires 0 <= p < |d| =>
      if left < p <= right then SegmentPixel(left, right, leftCol, rightCol, toArgb, p) else d[p])
  }

  /** The stop pass from stop k on, the previous stop being at pixel `left` with colour `leftCol`. */
  function StopPass(d: seq<Argb>, stops: seq<ColorStop>, k: nat, left: nat, leftCol: Color, toArgb: Color -> Argb): (r: seq<Argb>)
    requires WellFormedStops(stops)
    ensures |r| == |d|
    decreases |stops| - k
  {
    if k >= |stops| then d
    else
      var right := PixelOf(stops[k].offset);
      StopPass(Segment(d, left, right, leftCol, stops[k].color, toArgb), stops, k + 1, right, stops[k].color, toArgb)
  }

  /**
   * The ramp texture written over the old contents d: the pads, then the
   * first stop's colour at its pixel, then every segment between
   * consecutive stops.
   */
  function Ramp(d: seq<Argb>, stops: seq<ColorStop>, extend: Extend, toArgb: Color -> Argb): (r: seq<Argb>)
    requires |d| == Width && WellFormedStops(stops)
    ensures |r| == Width
  {
    var first := FirstPixel(stops);
    StopPass(Padded(d, stops, extend, toArgb)[first := toArgb(stops[0].color)], stops, 1, first, stops[0].color, toArgb)
  }

  // ---------------------------------------------------------------------
  // What the ramp is, for stops in order
  // ---------------------------------------------------------------------

  /** For stops in order, the stop pass from stop k on touches only the pixels in (left, last stop's pixel]. */
  lemma {:induction false} StopPassFrame(d: seq<Argb>, stops: seq<ColorStop>, k: nat, left: nat, leftCol: Color,
                                         toArgb: Color -> Argb, p: nat)
    requires WellFormedStops(stops) && Sorted(stops) && 0 < k <= |stops| && left == PixelOf(stops[k - 1].offset)
    requires p < |d| && (p <= left || p > LastPixel(stops))
    ensures StopPass(d, stops, k, left, leftCol, toArgb)[p] == d[p]
    decreases |stops| - k
  {
    if k < |stops| {
      var right := PixelOf(stops[k].offset);
      PixelOfMonotone(stops[k - 1].offset, stops[k].offset);
      PixelOfMonotone(stops[k].offset, stops[|stops| - 1].offset);
      var d' := Segment(d, left, right, leftCol, stops[k].color, toArgb);
      StopPassFrame(d', stops, k + 1, right, stops[k].color, toArgb, p);
    }
  }

  /**
   * For stops in order, the stop pass from stop k on writes every pixel
   * in (left, last stop's pixel], whatever was there before.
   */
  lemma {:induction false} StopPassCovers(d1: seq<Argb>, d2: seq<Argb>, stops: seq<ColorStop>, k: nat, left: nat,
                                          leftCol: Color, toArgb: Color -> Argb, p: nat)
    requires WellFormedStops(stops) && Sorted(stops) && 0 < k <= |stops| && left == PixelOf(stops[k - 1].offset)
    requires |d1| == |d2| && p < |d1| && left < p <= LastPixel(stops)
    ensures StopPass(d1, stops, k, left, leftCol, toArgb)[p] == StopPass(d2, stops, k, left, leftCol, toArgb)[p]
    decreases |stops| - k
  {
    if k < |stops| {
      var right := PixelOf(stops[k].offset);
      PixelOfMonotone(stops[k].offset, stops[|stops| - 1].offset);
      var d1' := Segment(d1, left, right, leftCol, stops[k].color, toArgb);
      var d2' := Segment(d2, left, right, leftCol, stops[k].color, toArgb);
      if p <= right {
        StopPassFrame(d1', stops, k + 1, right, stops[k].color, toArgb, p);
        StopPassFrame(d2', stops, k + 1, right, stops[k].color, toArgb, p);
      } else {
        StopPassCovers(d1', d2', stops, k + 1, right, stops[k].color, toArgb, p);
      }
    }
  }

  /**
   * For stops in order, the ramp does not depend on what the texture held:
   * every one of its pixels is written.
   */
  lemma RampOverwritesEveryPixel(d1: seq<Argb>, d2: seq<Argb>, stops: seq<ColorStop>, extend: Extend, toArgb: Color -> Argb)
    requires |d1| == Width && |d2| == Width && WellFormedStops(stops) && Sorted(stops)
    ensures Ramp(d1, stops, extend, toArgb) == Ramp(d2, stops, extend, toArgb)
  {
    var first, last := FirstPixel(stops), LastPixel(stops);
    var e1 := Padded(d1, stops, extend, toArgb)[first := toArgb(stops[0].color)];
    var e2 := Padded(d2, stops, extend, toArgb)[first := toArgb(stops[0].color)];
    forall p | 0 <= p < Width
      ensures Ramp(d1, stops, extend, toArgb)[p] == Ramp(d2, stops, extend, toArgb)[p]
    {
      if first < p <= last {
        StopPassCovers(e1, e2, stops, 1, first, stops[0].color, toArgb, p);
      } else {
        StopPassFrame(e1, stops, 1, first, stops[0].color, toArgb, p);
        StopPassFrame(e2, stops, 1, first, stops[0].color, toArgb, p);
      }
    }
  }

  /**
   * For stops in order, the pads hold what the extend mode says, and the
   * first stop's pixel holds the first stop's colour.
   */
  lemma RampPadsAndFirstStop(d: seq<Argb>, stops: seq<ColorStop>, extend: Extend, toArgb: Color -> Argb, p: nat)
    requires |d| == Width && WellFormedStops(stops) && Sorted(stops) && p < Width
    ensures (p < FirstPixel(stops) || p > LastPixel(stops)) ==>
              Ramp(d, stops, extend, toArgb)[p] == PadPixel(stops, extend, toArgb, p)
    ensures p == FirstPixel(stops) ==> Ramp(d, stops, extend, toArgb)[p] == toArgb(stops[0].color)
  {
    var first := FirstPixel(stops);
    var e := Padded(d, stops, extend, toArgb)[first := toArgb(stops[0].color)];
    if p <= first || p > LastPixel(stops) {
      StopPassFrame(e, stops, 1, first, stops[0].color, toArgb, p);
    }
  }

  /**
   * For stops in order, a stop whose pixel lies after the previous stop's
   * gets its own colour at its pixel: the interpolation reaches it
   * exactly, and no later segment writes that pixel again.
   */
  lemma RampHitsStop(d: seq<Argb>, stops: seq<ColorStop>, extend: Extend, toArgb: Color -> Argb, k: nat)
    requires |d| == Width && WellFormedStops(stops) && Sorted(stops)
    requires 0 < k < |stops| && PixelOf(stops[k - 1].offset) < PixelOf(stops[k].offset)
    ensures Ramp(d, stops, extend, toArgb)[PixelOf(stops[k].offset)] == toArgb(stops[k].color)
  {
    var first := FirstPixel(stops);
    var e := Padded(d, stops, extend, toArgb)[first := toArgb(stops[0].color)];
    StopPassAt(e, stops, 1, first, stops[0].color, toArgb, k);
  }

  /** A segment ends on exactly the right stop's colour. */
  lemma SegmentReachesRight(d: seq<Argb>, left: nat, right: nat, leftCol: Color, rightCol: Color, toArgb: Color -> Argb)
    requires left < right < |d|
    ensures Segment(d, left, right, leftCol, rightCol, toArgb)[right] == toArgb(rightCol)
  {
    var span := (right - left) as real;
    assert span / span == 1.0;
  }

  /** The stop pass from stop j on leaves stop k's colour at its pixel, once reached. */
  lemma {:induction false} StopPassAt(d: seq<Argb>, stops: seq<ColorStop>, j: nat, left: nat, leftCol: Color,
                                      toArgb: Color -> Argb, k: nat)
    requires |d| == Width && WellFormedStops(stops) && Sorted(stops)
    requires 0 < j <= k < |stops| && left == PixelOf(stops[j - 1].offset)
    requires PixelOf(stops[k - 1].offset) < PixelOf(stops[k].offset)
    requires j == k ==> leftCol == stops[k - 1].color
    ensures StopPass(d, stops, j, left, leftCol, toArgb)[PixelOf(stops[k].offset)] == toArgb(stops[k].color)
    decreases k - j
  {
    var right := PixelOf(stops[j].offset);
    var d' := Segment(d, left, right, leftCol, stops[j].color, toArgb);
    if j == k {
      SegmentReachesRight(d, left, right, leftCol, stops[j].color, toArgb);
      StopPassFrame(d', stops, j + 1, right, stops[j].color, toArgb, right);
    } else {
      PixelOfMonotone(stops[j].offset, stops[k - 1].offset);
      StopPassAt(d', stops, j + 1, right, stops[j].color, toArgb, k);
    }
  }

  // ---------------------------------------------------------------------
  // Filling the texture
  // ---------------------------------------------------------------------

  /** NONE: the pads are cleared to transparent black. */
  method PadNone(dat: array<Argb>, first: nat, last: nat)
    requires dat.Length == Width && first < Width && last < Width
    modifies dat
    ensures forall i :: 0 <= i < Width ==> dat[i] == if i < first || i > last then 0 else old(dat[i])
  {
    for i := 0 to first
      invariant forall j :: 0 <= j < Width ==> dat[j] == if j < i then 0 else old(dat[j])
    {
      dat[i] := 0;
    }
    for i := last + 1 to Width
      invariant forall j :: 0 <= j < Width ==>
                  dat[j] == if last < j < i then 0 else if j < first then 0 else old(dat[j])
    {
      dat[i] := 0;
    }
  }

  /** PAD and REFLECT: the left pad takes the first stop's colour, the right pad the last stop's. */
  method PadEnds(dat: array<Argb>, first: nat, last: nat, leftArgb: Argb, rightArgb: Argb)
    requires dat.Length == Width && first < Width && last < Width
    modifies dat
    ensures forall i :: 0 <= i < Width ==>
              dat[i] == if i > last then rightArgb else if i < first then leftArgb else old(dat[i])
  {
    var col := leftArgb;
    for i := 0 to first
      invariant forall j :: 0 <= j < Width ==> dat[j] == if j < i then leftArgb else old(dat[j])
    {
      dat[i] := col;
    }
    col := rightArgb;
    for i := last + 1 to Width
      invariant forall j :: 0 <= j < Width ==>
                  dat[j] == if last < j < i then rightArgb else if j < first then leftArgb else old(dat[j])
    {
      dat[i] := col;
    }
  }

  /** REPEAT: each pad interpolates from its own end's colour towards the other end's. */
  method PadRepeat(dat: array<Argb>, stops: seq<ColorStop>, toArgb: Color -> Argb)
    requires dat.Length == Width && WellFormedStops(stops)
    modifies dat
    ensures forall i :: 0 <= i < Width ==>
              dat[i] == if i > LastPixel(stops) then RepeatRight(stops, toArgb, i)
                        else if i < FirstPixel(stops) then RepeatLeft(stops, toArgb, i)
                        else old(dat[i])
  {
    var first, last := FirstPixel(stops), LastPixel(stops);
    var leftPad := first;
    var rightPad := Width - last - 1;
    var totalPad := (leftPad + rightPad) as real;
    var leftCol, rightCol := stops[0].color, stops[|stops| - 1].color;
    for i := 0 to first
      invariant forall j :: 0 <= j < Width ==> dat[j] == if j < i then RepeatLeft(stops, toArgb, j) else old(dat[j])
    {
      var t := (first - i) as real / totalPad;
      var col := ColorLerp(leftCol, rightCol, t);
      dat[i] := toArgb(col);
    }
    ghost var left := dat[..];
    assert forall j :: 0 <= j < Width ==> left[j] == if j < first then RepeatLeft(stops, toArgb, j) else old(dat[j]);
    for i := last + 1 to Width
      invariant forall j :: 0 <= j < Width ==> dat[j] == if last < j < i then RepeatRight(stops, toArgb, j) else left[j]
    {
      var t := (i - last) as real / totalPad;
      var col := ColorLerp(rightCol, leftCol, t);
      dat[i] := toArgb(col);
    }
  }

  /** The pads of every extend mode. */
  method FillPads(dat: array<Argb>, stops: seq<ColorStop>, extend: Extend, toArgb: Color -> Argb)
    requires dat.Length == Width && WellFormedStops(stops)
    modifies dat
    ensures dat[..] == Padded(old(dat[..]), stops, extend, toArgb)
  {
    var first, last := FirstPixel(stops), LastPixel(stops);
    ghost var d := dat[..];
    match extend {
      case ExtendNone =>
        PadNone(dat, first, last);
        PaddedFrom(d, dat[..], stops, extend, toArgb);
      case ExtendPad =>
        PadEnds(dat, first, last, toArgb(stops[0].color), toArgb(stops[|stops| - 1].color));
        PaddedFrom(d, dat[..], stops, extend, toArgb);
      case ExtendReflect =>
        PadEnds(dat, first, last, toArgb(stops[0].color), toArgb(stops[|stops| - 1].color));
        PaddedFrom(d, dat[..], stops, extend, toArgb);
      case ExtendRepeat =>
        PadRepeat(dat, stops, toArgb);
        PaddedFrom(d, dat[..], stops, extend, toArgb);
    }
  }

  /** A texture that holds the pads of stops and extend over d, and d elsewhere, is Padded. */
  lemma PaddedFrom(d: seq<Argb>, r: seq<Argb>, stops: seq<ColorStop>, extend: Extend, toArgb: Color -> Argb)
    requires |d| == Width && |r| == Width && WellFormedStops(stops)
    requires forall i :: 0 <= i < Width ==>
               r[i] == if i < FirstPixel(stops) || i > LastPixel(stops) then PadPixel(stops, extend, toArgb, i) else d[i]
    ensures r == Padded(d, stops, extend, toArgb)
  {
  }

  /** The pixels in (left, right] interpolated between the two colours; nothing when right <= left. */
  method LerpSegment(dat: array<Argb>, left: nat, right: nat, leftCol: Color, rightCol: Color, toArgb: Color -> Argb)
    requires dat.Length == Width && left < Width && right < Width
    modifies dat
    ensures dat[..] == Segment(old(dat[..]), left, right, leftCol, rightCol, toArgb)
  {
    ghost var d := dat[..];
    var pixi := left + 1;
    while pixi <= right
      invariant left + 1 <= pixi <= Width && (pixi <= right + 1 || pixi == left + 1)
      invariant forall j :: 0 <= j < Width ==>
                  dat[j] == if left < j < pixi then SegmentPixel(left, right, leftCol, rightCol, toArgb, j) else d[j]
    {
      var t := (pixi - left) as real / (right - left) as real;
      var col := ColorLerp(leftCol, rightCol, t);
      dat[pixi] := toArgb(col);
      pixi := pixi + 1;
    }
    assert forall j :: 0 <= j < Width ==> dat[..][j] == Segment(d, left, right, leftCol, rightCol, toArgb)[j];
  }

  /** The first stop's colour at its pixel, then each segment between consecutive stops. */
  method FillStops(dat: array<Argb>, stops: seq<ColorStop>, toArgb: Color -> Argb)
    requires dat.Length == Width && WellFormedStops(stops)
    modifies dat
    ensures dat[..] == StopPass(old(dat[..])[FirstPixel(stops) := toArgb(stops[0].color)],
                                stops, 1, FirstPixel(stops), stops[0].color, toArgb)
  {
    var leftCol := stops[0].color;
    var leftPix: nat := FirstPixel(stops);
    dat[leftPix] := toArgb(leftCol);
    ghost var whole := StopPass(dat[..], stops, 1, leftPix, leftCol, toArgb);
    for stopi := 1 to |stops|
      invariant dat.Length == Width && leftPix < Width
      invariant StopPass(dat[..], stops, stopi, leftPix, leftCol, toArgb) == whole
    {
      var rightCol := stops[stopi].color;
      var rightPix: nat := PixelOf(stops[stopi].offset);
      LerpSegment(dat, leftPix, rightPix, leftCol, rightCol, toArgb);
      leftCol, leftPix := rightCol, rightPix;
    }
  }

  /**
   * Fills the locked ramp texture for a gradient: the pads of its extend
   * mode, then the stops. The stops must be at least one, with offsets in
   * [0, 1], as the texture code asserts of them.
   */
  method FillColorRamp(dat: array<Argb>, stops: seq<ColorStop>, extend: Extend, toArgb: Color -> Argb)
    requires dat.Length == Width && WellFormedStops(stops)
    modifies dat
    ensures dat[..] == Ramp(old(dat[..]), stops, extend, toArgb)
  {
    FillPads(dat, stops, extend, toArgb);
    FillStops(dat, stops, toArgb);
  }

  /**
   * Prepares the texture unit of a gradient: the ramp texture is created
   * the first time, then filled, and the unit addresses it as the extend
   * mode says.
   */
  method PrepareColorRamp(gpu: GpuResources, dat: array<Argb>, stops: seq<ColorStop>, extend: Extend,
                          toArgb: Color -> Argb) returns (unit: RampUnit)
    requires gpu.Valid() && gpu.refCount > 0
    requires dat.Length == Width && WellFormedStops(stops)
    modifies gpu`held, gpu`log, dat
    ensures gpu.Valid() && RampTexture in gpu.held && gpu.held == old(gpu.held) + {RampTexture}
    ensures dat[..] == Ramp(old(dat[..]), stops, extend, toArgb)
    ensures unit == RampUnitFor(extend)
  {
    gpu.LoadOnce(RampTexture);
    FillColorRamp(dat, stops, extend, toArgb);
    var addressing := TextureAddressing(extend);
    unit := RampUnit(addressing, None);
    if addressing == Border {
      unit := unit.(border := Some(StockColor(StockBlack)));
    }
  }

  /**
   * Sets a pattern as the source. A surface pattern is refused. A linear
   * or radial gradient gets the ramp texture on unit 0, and a radial one
   * also the radial-gradient shader, loaded the first time. A solid colour
   * touches neither.
   */
  method SetSource(gpu: GpuResources, dat: array<Argb>, p: Pattern, toArgb: Color -> Argb)
      returns (status: Status, unit: Option<RampUnit>)
    requires gpu.Valid() && gpu.refCount > 0 && dat.Length == Width
    requires p.Linear? || p.Radial? ==> WellFormedStops(p.stops)
    modifies gpu`held, gpu`log, dat
    ensures gpu.Valid() && status == SetSourceStatus(p) && unit == SourceUnit(p)
    ensures p.Linear? || p.Radial? ==> dat[..] == Ramp(old(dat[..]), p.stops, p.extend, toArgb)
    ensures gpu.held == old(gpu.held) + (if p.Linear? then {RampTexture} else if p.Radial? then {RampTexture, RadialShader} else {})
    ensures !(p.Linear? || p.Radial?) ==> dat[..] == old(dat[..]) && gpu.log == old(gpu.log)
  {
    match p {
      case Linear(stops, extend) =>
        var u := PrepareColorRamp(gpu, dat, stops, extend, toArgb);
        unit := Some(u);
      case Radial(stops, extend) =>
        gpu.LoadOnce(RadialShader);
        var u := PrepareColorRamp(gpu, dat, stops, extend, toArgb);
        unit := Some(u);
      case SurfacePattern =>
        return Unsupported, None;
      case Solid(_) =>
        unit := None;
    }
    status := Success;
  }
}
