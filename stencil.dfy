/**
 * The stencil-buffer setup of the fill and stroke mask passes, and a model
 * of what the stencil buffer does with it, so that the setup can be judged
 * by its effect on one pixel covered by a sequence of triangles.
 */
module Stencils {
  datatype CompareFunc = AlwaysFail | AlwaysPass | Less | LessEqual | Equal | NotEqual | GreaterEqual | Greater

  datatype StencilOp = Keep | Zero | Replace | Increment | Decrement | IncrementWrap | DecrementWrap | Invert

  /** The arguments of one stencil setup call, in the order the GPU layer takes them. */
  datatype StencilParams = StencilParams(func: CompareFunc, refValue: nat, mask: nat,
                                         stencilFailOp: StencilOp, depthFailOp: StencilOp,
                                         passOp: StencilOp, twoSided: bool)

  datatype FillRule = Winding | EvenOdd

  /** 0xffffffff: every stencil bit takes part in the test. */
  const FullMask: nat := 0xffff_ffff

  /** Non-zero winding counts up on front faces (down on back faces); even-odd flips the bits. */
  function FillStencil(rule: FillRule): (p: StencilParams)
    ensures p.func == AlwaysPass && p.refValue == 0 && p.mask == FullMask
  {
    match rule
    case Winding => StencilParams(AlwaysPass, 0, FullMask, IncrementWrap, IncrementWrap, IncrementWrap, true)
    case EvenOdd => StencilParams(AlwaysPass, 0, FullMask, Invert, Invert, Invert, false)
  }

  /** Draw only where the stencil is still zero, and mark what was drawn. */
  const StrokeStencil: StencilParams := StencilParams(Equal, 0, FullMask, Keep, Keep, Increment, false)

  // ---------------------------------------------------------------------
  // What the stencil buffer does (values 0 .. size - 1, full mask)
  // ---------------------------------------------------------------------

  /** The test compares the reference value against the stored value. */
  predicate Passes(f: CompareFunc, refValue: nat, v: nat)
  {
    match f
    case AlwaysFail => false
    case AlwaysPass => true
    case Less => refValue < v
    case LessEqual => refValue <= v
    case Equal => refValue == v
    case NotEqual => refValue != v
    case GreaterEqual => refValue >= v
    case Greater => refValue > v
  }

  function Update(op: StencilOp, refValue: nat, v: nat, size: nat): nat
    requires 2 <= size && v < size
  {
    match op
    case Keep => v
    case Zero => 0
    case Replace => refValue % size
    case Increment => if v + 1 < size then v + 1 else v
    case Decrement => if v > 0 then v - 1 else 0
    case IncrementWrap => (v + 1) % size
    case DecrementWrap => (v + size - 1) % size
    case Invert => size - 1 - v
  }

  /** With two-sided operation a back face applies the opposite operation. */
  function BackFace(op: StencilOp): StencilOp
  {
    match op
    case Increment => Decrement
    case Decrement => Increment
    case IncrementWrap => DecrementWrap
    case DecrementWrap => IncrementWrap
    case _ => op
  }

  /** A triangle covering a pixel: whether it faces front and whether it passes the depth test. */
  datatype Cover = Cover(front: bool, depthPasses: bool)

  /** The stored value after one covering triangle. */
  function Covered(p: StencilParams, v: nat, c: Cover, size: nat): (r: nat)
    requires 2 <= size && v < size && p.mask == FullMask
    ensures r < size
  {
    var op := if !Passes(p.func, p.refValue, v) then p.stencilFailOp
              else if c.depthPasses then p.passOp else p.depthFailOp;
    Update(if p.twoSided && !c.front then BackFace(op) else op, p.refValue, v, size)
  }

  /** The stored value after a sequence of covering triangles. */
  function CoveredBy(p: StencilParams, v: nat, cs: seq<Cover>, size: nat): (r: nat)
    requires 2 <= size && v < size && p.mask == FullMask
    ensures r < size
  {
    if cs == [] then v else Covered(p, CoveredBy(p, v, cs[..|cs| - 1], size), cs[|cs| - 1], size)
  }

  /** Front-facing minus back-facing covers: the winding number at the pixel. */
  function WindingNumber(cs: seq<Cover>): int
  {
    if cs == [] then 0 else WindingNumber(cs[..|cs| - 1]) + (if cs[|cs| - 1].front then 1 else -1)
  }

  /**
   * Under the non-zero rule's setup a pixel ends with its winding number,
   * modulo the number of stencil values, whatever the depth test says.
   */
  lemma {:induction false} WindingStencilCountsWinding(cs: seq<Cover>, size: nat)
    requires 2 <= size
    ensures CoveredBy(FillStencil(Winding), 0, cs, size) == WindingNumber(cs) % size
  {
    if cs != [] {
      var front := cs[..|cs| - 1];
      WindingStencilCountsWinding(front, size);
      var w := WindingNumber(front);
      StepMod(w, size);
    }
  }

  /** Stepping a residue by one, with or without wrap-around, is stepping the number. */
  lemma StepMod(w: int, size: nat)
    requires size > 0
    ensures (w % size + 1) % size == (w + 1) % size
    ensures (w % size + size - 1) % size == (w - 1) % size
  {
    var q, r := w / size, w % size;
    if r + 1 < size {
      ModUnique(w + 1, q, r + 1, size);
      ModUnique(r + 1, 0, r + 1, size);
    } else {
      ModUnique(w + 1, q + 1, 0, size);
      ModUnique(r + 1, 1, 0, size);
    }
    if r > 0 {
      ModUnique(w - 1, q, r - 1, size);
      ModUnique(r + size - 1, 1, r - 1, size);
    } else {
      ModUnique(w - 1, q - 1, size - 1, size);
      ModUnique(r + size - 1, 0, size - 1, size);
    }
  }

  /** Euclidean division is determined by its quotient-and-remainder equation. */
  lemma ModUnique(x: int, k: int, r: int, size: int)
    requires size > 0 && 0 <= r < size && x == k * size + r
    ensures x % size == r
  {
    var q, m := x / size, x % size;
    assert (k - q) * size == m - r;
    if k > q {
      MulAtLeast(k - q, size);
    } else if k < q {
      MulAtLeast(q - k, size);
    }
  }

  lemma MulAtLeast(d: int, size: int)
    requires d >= 1 && size > 0
    ensures d * size >= size
  {
  }

  /**
   * Under the even-odd rule's setup a pixel is non-zero exactly when an odd
   * number of triangles covers it.
   */
  lemma {:induction false} EvenOddStencilCountsParity(cs: seq<Cover>, size: nat)
    requires 2 <= size
    ensures CoveredBy(FillStencil(EvenOdd), 0, cs, size) == (if |cs| % 2 == 1 then size - 1 else 0)
  {
    if cs != [] {
      EvenOddStencilCountsParity(cs[..|cs| - 1], size);
    }
  }

  /**
   * The stroke setup marks a pixel at the first covering triangle that
   * passes the depth test and never again, so overlapping stroke triangles
   * are counted once.
   */
  lemma {:induction false} StrokeStencilMarksOnce(cs: seq<Cover>, size: nat)
    requires 2 <= size
    ensures CoveredBy(StrokeStencil, 0, cs, size) == (if exists i :: 0 <= i < |cs| && cs[i].depthPasses then 1 else 0)
  {
    if cs != [] {
      var front := cs[..|cs| - 1];
      StrokeStencilMarksOnce(front, size);
      if exists i :: 0 <= i < |front| && front[i].depthPasses {
        var i :| 0 <= i < |front| && front[i].depthPasses;
        assert cs[i].depthPasses;
      } else if cs[|cs| - 1].depthPasses {
        assert cs[|cs| - 1].depthPasses;
      } else {
        forall i | 0 <= i < |cs|
          ensures !cs[i].depthPasses
        {
          if i < |front| {
            assert cs[i] == front[i];
          }
        }
      }
    }
  }
}
