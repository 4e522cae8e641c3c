/**
 * The GPU curve pass: every buffered cubic is drawn as two triangles over
 * its control polygon, each vertex carrying a texture coordinate (k, l, m)
 * from the per-kind coefficient rows M[0..3], so that the fragment program
 * can shade by the sign of k^3 - l m. Along the curve itself k^3 - l m is 0.
 */
module SplineFill {
  import opened Config
  import opened GralTypes
  import opened GralMath
  import opened Cubics
  import opened Gpu
  import opened SplinesBuffers
  import opened Meshes
  import opened SplineMeshes

  function Third(): real { 1.0 / 3.0 }

  /** Rows of a quadratic: (k, l, m) = (t, t^2, t) along the curve. */
  function QuadraticRows(): Rows
  {
    Rows(TexCoord3(0.0, 0.0, 0.0), TexCoord3(Third(), 0.0, Third()),
         TexCoord3(2.0 * Third(), Third(), 2.0 * Third()), TexCoord3(1.0, 1.0, 1.0))
  }

  /** Rows of a cusp at infinity for the line (ls, lt). */
  function CuspRows(ls: real, lt: real): Rows
  {
    Rows(TexCoord3(ls, ls * ls * ls, 1.0),
         TexCoord3(ls - Third() * lt, ls * ls * (ls - lt), 1.0),
         TexCoord3(ls - 2.0 * Third() * lt, (ls - lt) * (ls - lt) * ls, 1.0),
         TexCoord3(ls - lt, (ls - lt) * (ls - lt) * (ls - lt), 1.0))
  }

  /** Rows of a serpentine (or cusp) for the lines (ls, lt) and (ms, mt). */
  function SerpentineRows(ls: real, lt: real, ms: real, mt: real): Rows
  {
    Rows(TexCoord3(ls * ms, ls * ls * ls, ms * ms * ms),
         TexCoord3(Third() * (3.0 * ls * ms - ls * mt - lt * ms), ls * ls * (ls - lt), ms * ms * (ms - mt)),
         TexCoord3(Third() * (lt * (mt - 2.0 * ms) + ls * (3.0 * ms - 2.0 * mt)),
                   (lt - ls) * (lt - ls) * ls, (mt - ms) * (mt - ms) * ms),
         TexCoord3((lt - ls) * (mt - ms), -(lt - ls) * (lt - ls) * (lt - ls), -(mt - ms) * (mt - ms) * (mt - ms)))
  }

  /** Rows of a loop for the lines (ls, lt) and (ms, mt). */
  function LoopRows(ls: real, lt: real, ms: real, mt: real): Rows
  {
    Rows(TexCoord3(ls * ms, ls * ls * ms, ls * ms * ms),
         TexCoord3(Third() * (3.0 * ls * ms - ls * mt - lt * ms),
                   -Third() * ls * (ls * (mt - 3.0 * ms) + 2.0 * lt * ms),
                   -Third() * ms * (ls * (2.0 * mt - 3.0 * ms) + lt * ms)),
         TexCoord3(Third() * (lt * (mt - 2.0 * ms) + ls * (3.0 * ms - 2.0 * mt)),
                   Third() * (lt - ls) * (ls * (2.0 * mt - 3.0 * ms) + lt * ms),
                   Third() * (mt - ms) * (ls * (mt - 3.0 * ms) + 2.0 * lt * ms)),
         TexCoord3((lt - ls) * (mt - ms), -(lt - ls) * (lt - ls) * (mt - ms), -(lt - ls) * (mt - ms) * (mt - ms)))
  }

  /**
   * The rows of a cubic that is not a line, before orientation, with the
   * flag saying whether its own kind asks for reversal: serpentines when
   * d1 < 0, loops when d1 and M[1].x have strictly opposite signs. The
   * lines are ls = d2 - r, ms = d2 + r, lt = mt = 2 d1, with r the square
   * root of the discriminant over 3 (serpentine) or of its negation (loop).
   */
  function BaseRows(d: Discriminants, sqrt: real -> real): (Rows, bool)
    requires Classify(d) != Line
  {
    match Classify(d)
    case Quadratic => (QuadraticRows(), false)
    case CuspAtInfinity => (CuspRows(d.d3, 3.0 * d.d2), false)
    case Serpentine =>
      var r := sqrt(InflectionDiscriminant(d) / 3.0);
      (SerpentineRows(d.d2 - r, 2.0 * d.d1, d.d2 + r, 2.0 * d.d1), d.d1 < 0.0)
    case Loop =>
      var r := sqrt(-InflectionDiscriminant(d));
      var rows := LoopRows(d.d2 - r, 2.0 * d.d1, d.d2 + r, 2.0 * d.d1);
      (rows, (d.d1 < 0.0 && rows.m1.u > 0.0) || (d.d1 > 0.0 && rows.m1.u < 0.0))
  }

  /** A loop is reversed exactly when d1 and M[1].x have strictly opposite signs. */
  lemma LoopReversalIsOppositeSigns(d: Discriminants, sqrt: real -> real)
    requires Classify(d) == Loop
    ensures BaseRows(d, sqrt).1 <==> d.d1 * BaseRows(d, sqrt).0.m1.u < 0.0
  {
    var u := BaseRows(d, sqrt).0.m1.u;
    if d.d1 < 0.0 && u > 0.0 {
      assert d.d1 * u < 0.0;
    } else if d.d1 > 0.0 && u < 0.0 {
      assert d.d1 * u < 0.0;
    } else if d.d1 < 0.0 {
      assert d.d1 * u >= 0.0;
    } else {
      assert d.d1 > 0.0 && u >= 0.0;
      assert d.d1 * u >= 0.0;
    }
  }

  /** Negates the first two components of every row, keeping the third. */
  function Reverse(r: Rows): Rows
  {
    Rows(Flip(r.m0), Flip(r.m1), Flip(r.m2), Flip(r.m3))
  }

  function Flip(t: TexCoord3): TexCoord3
  {
    TexCoord3(-t.u, -t.v, t.w)
  }

  /**
   * The texture coordinates of a cubic's four control points, or None for a
   * line (which is not drawn). A clockwise control polygon toggles the
   * reversal its kind asks for.
   */
  function SplineTexCoords(cp: Spline, sqrt: real -> real): (r: Option<Rows>)
    ensures r.None? <==> Classify(CubicDiscriminants(cp)) == Line
    ensures r.Some? ==>
              var (base, rev) := BaseRows(CubicDiscriminants(cp), sqrt);
              r.value == (if rev != QuadIsClockwise(cp) then Reverse(base) else base)
  {
    var d := CubicDiscriminants(cp);
    if Classify(d) == Line then None
    else
      var (base, rev) := BaseRows(d, sqrt);
      var reverse := if QuadIsClockwise(cp) then !rev else rev;
      Some(if reverse then Reverse(base) else base)
  }

  // ---------------------------------------------------------------------
  // The implicit form k^3 - l m vanishes along the curve
  // ---------------------------------------------------------------------

  /** The function the fragment program tests the sign of. */
  function Implicit(t: TexCoord3): real
  {
    t.u * t.u * t.u - t.v * t.w
  }

  /** The texture coordinate interpolated along the curve at parameter t. */
  function EvalRows(r: Rows, t: real): TexCoord3
  {
    TexCoord3(Bernstein(r.m0.u, r.m1.u, r.m2.u, r.m3.u, t),
              Bernstein(r.m0.v, r.m1.v, r.m2.v, r.m3.v, t),
              Bernstein(r.m0.w, r.m1.w, r.m2.w, r.m3.w, t))
  }

  /** The linear form that is a at t = 0 and b at t = 1. */
  function Lin(a: real, b: real, t: real): real
  {
    (1.0 - t) * a + t * b
  }

  /** Product of two linear forms. */
  lemma LinProduct2(a: real, b: real, c: real, e: real, t: real)
    ensures Lin(a, b, t) * Lin(c, e, t) == Quad(a * c, a * e + b * c, b * e, t)
  {
  }

  /**
   * The Bernstein coefficients of a product of three linear forms: the
   * control values of a cubic that factors into them.
   */
  lemma BernsteinOfProduct(a: real, b: real, c: real, e: real, f: real, g: real, t: real)
    ensures Bernstein(a * c * f, (b * c * f + a * e * f + a * c * g) / 3.0,
                      (a * e * g + b * c * g + b * e * f) / 3.0, b * e * g, t)
         == Lin(a, b, t) * Lin(c, e, t) * Lin(f, g, t)
  {
    ProductCoefficients(a, b, c, e, f, g);
    BernsteinOfQuadraticTimesLinear(a * c, a * e + b * c, b * e, f, g,
                                    a * c * f, (b * c * f + a * e * f + a * c * g) / 3.0,
                                    (a * e * g + b * c * g + b * e * f) / 3.0, b * e * g, t);
    LinProduct2(a, b, c, e, t);
    MulCongruent(Lin(a, b, t) * Lin(c, e, t), Quad(a * c, a * e + b * c, b * e, t), Lin(f, g, t), Lin(f, g, t));
  }

  /** The quadratic form u^2 p + u t q + t^2 r in (u, t) = (1 - t, t). */
  function Quad(p: real, q: real, r: real, t: real): real
  {
    (1.0 - t) * (1.0 - t) * p + (1.0 - t) * t * q + t * t * r
  }

  lemma MulByOne(x: real, one: real)
    requires one == 1.0
    ensures x * one == x
  {
  }

  lemma MulCongruent(x1: real, x2: real, y1: real, y2: real)
    requires x1 == x2 && y1 == y2
    ensures x1 * y1 == x2 * y2
  {
  }

  /** The control values of a quadratic form times a linear one. */
  lemma BernsteinOfQuadraticTimesLinear(p: real, q: real, r: real, f: real, g: real,
                                        p0: real, p1: real, p2: real, p3: real, t: real)
    requires p0 == p * f && 3.0 * p1 == p * g + q * f && 3.0 * p2 == q * g + r * f && p3 == r * g
    ensures Bernstein(p0, p1, p2, p3, t) == Quad(p, q, r, t) * Lin(f, g, t)
  {
    var u := 1.0 - t;
    CubicFormCongruent(u, t, p0, 3.0 * p1, 3.0 * p2, p3, p * f, p * g + q * f, q * g + r * f, r * g);
    QuadraticTimesLinear(u, t, p, q, r, f, g);
    BernsteinExpanded(p0, p1, p2, p3, t);
  }

  /** The middle coefficients of the expanded product of three linear forms. */
  lemma ProductCoefficients(a: real, b: real, c: real, e: real, f: real, g: real)
    ensures 3.0 * ((b * c * f + a * e * f + a * c * g) / 3.0) == (a * c) * g + (a * e + b * c) * f
    ensures 3.0 * ((a * e * g + b * c * g + b * e * f) / 3.0) == (a * e + b * c) * g + (b * e) * f
  {
  }

  lemma CubicFormCongruent(u: real, t: real, c0: real, c1: real, c2: real, c3: real,
                           e0: real, e1: real, e2: real, e3: real)
    requires c0 == e0 && c1 == e1 && c2 == e2 && c3 == e3
    ensures u * u * u * c0 + u * u * t * c1 + u * t * t * c2 + t * t * t * c3
         == u * u * u * e0 + u * u * t * e1 + u * t * t * e2 + t * t * t * e3
  {
  }

  /** A product of a quadratic and a linear form in (u, t), expanded. */
  lemma QuadraticTimesLinear(u: real, t: real, p: real, q: real, r: real, f: real, g: real)
    ensures (u * u * p + u * t * q + t * t * r) * (u * f + t * g)
         == u * u * u * (p * f) + u * u * t * (p * g + q * f) + u * t * t * (q * g + r * f) + t * t * t * (r * g)
  {
  }

  /** The Bernstein form with its weights written out in (u, t) = (1 - t, t). */
  lemma BernsteinExpanded(p0: real, p1: real, p2: real, p3: real, t: real)
    ensures Bernstein(p0, p1, p2, p3, t)
         == (1.0 - t) * (1.0 - t) * (1.0 - t) * p0 + (1.0 - t) * (1.0 - t) * t * (3.0 * p1)
            + (1.0 - t) * t * t * (3.0 * p2) + t * t * t * p3
  {
  }

  lemma CubeOfProduct(x: real, y: real)
    ensures (x * y) * (x * y) * (x * y) == (x * x * x) * (y * y * y)
  {
  }

  lemma QuadraticOnZeroSet(t: real)
    ensures Implicit(EvalRows(QuadraticRows(), t)) == 0.0
  {
    BernsteinOfProduct(0.0, 1.0, 1.0, 1.0, 1.0, 1.0, t);
    BernsteinOfProduct(0.0, 1.0, 0.0, 1.0, 1.0, 1.0, t);
    var tc := EvalRows(QuadraticRows(), t);
    assert tc.u == t && tc.w == t;
    assert tc.v == t * t;
  }

  lemma CuspOnZeroSet(ls: real, lt: real, t: real)
    ensures Implicit(EvalRows(CuspRows(ls, lt), t)) == 0.0
  {
    var L := Lin(ls, ls - lt, t);
    var tc := EvalRows(CuspRows(ls, lt), t);
    CuspFirst(ls, lt, t);
    CuspSecond(ls, lt, t);
    BernsteinOfConstant(1.0, t);
    ImplicitOfCubes(tc.u, tc.v, tc.w, L, 1.0);
  }

  lemma CuspFirst(ls: real, lt: real, t: real)
    ensures EvalRows(CuspRows(ls, lt), t).u == Lin(ls, ls - lt, t) * 1.0
  {
    var b := ls - lt;
    BernsteinCongruent(ls, ls - Third() * lt, ls - 2.0 * Third() * lt, ls - lt,
                       ls, (2.0 * ls + b) / 3.0, (ls + 2.0 * b) / 3.0, b, t);
    BernsteinOfLinear(ls, b, t);
  }

  lemma CuspSecond(ls: real, lt: real, t: real)
    ensures EvalRows(CuspRows(ls, lt), t).v == Lin(ls, ls - lt, t) * Lin(ls, ls - lt, t) * Lin(ls, ls - lt, t)
  {
    assert (ls - lt) * (ls - lt) * ls == (lt - ls) * (lt - ls) * ls;
    assert (ls - lt) * (ls - lt) * (ls - lt) == -(lt - ls) * (lt - ls) * (lt - ls);
    BernsteinCongruent(ls * ls * ls, ls * ls * (ls - lt), (ls - lt) * (ls - lt) * ls, (ls - lt) * (ls - lt) * (ls - lt),
                       ls * ls * ls, ls * ls * (ls - lt), (lt - ls) * (lt - ls) * ls, -(lt - ls) * (lt - ls) * (lt - ls), t);
    CubeRows(ls, lt, t);
  }

  /** A linear form's Bernstein coefficients are evenly spaced. */
  lemma BernsteinOfLinear(a: real, b: real, t: real)
    ensures Bernstein(a, (2.0 * a + b) / 3.0, (a + 2.0 * b) / 3.0, b, t) == Lin(a, b, t)
  {
    BernsteinExpanded(a, (2.0 * a + b) / 3.0, (a + 2.0 * b) / 3.0, b, t);
  }

  /** Equal control values give a constant. */
  lemma BernsteinOfConstant(c: real, t: real)
    ensures Bernstein(c, c, c, c, t) == c
  {
    BernsteinExpanded(c, c, c, c, t);
  }

  /** Every non-line cubic's rows put the curve on the zero set of k^3 - l m. */
  lemma BaseRowsOnZeroSet(d: Discriminants, sqrt: real -> real, t: real)
    requires Classify(d) != Line
    ensures Implicit(EvalRows(BaseRows(d, sqrt).0, t)) == 0.0
  {
    match Classify(d)
    case Quadratic => QuadraticOnZeroSet(t);
    case CuspAtInfinity => CuspOnZeroSet(d.d3, 3.0 * d.d2, t);
    case Serpentine =>
      var r := sqrt(InflectionDiscriminant(d) / 3.0);
      SerpentineOnZeroSet(d.d2 - r, 2.0 * d.d1, d.d2 + r, 2.0 * d.d1, t);
    case Loop =>
      var r := sqrt(-InflectionDiscriminant(d));
      LoopOnZeroSet(d.d2 - r, 2.0 * d.d1, d.d2 + r, 2.0 * d.d1, t);
  }

  lemma SerpentineOnZeroSet(ls: real, lt: real, ms: real, mt: real, t: real)
    ensures Implicit(EvalRows(SerpentineRows(ls, lt, ms, mt), t)) == 0.0
  {
    var L, M := Lin(ls, ls - lt, t), Lin(ms, ms - mt, t);
    var tc := EvalRows(SerpentineRows(ls, lt, ms, mt), t);
    assert tc.u == L * M by { SerpentineFirst(ls, lt, ms, mt, t); }
    assert tc.v == L * L * L by { CubeRows(ls, lt, t); }
    assert tc.w == M * M * M by { CubeRows(ms, mt, t); }
    ImplicitOfCubes(tc.u, tc.v, tc.w, L, M);
  }

  lemma SerpentineFirst(ls: real, lt: real, ms: real, mt: real, t: real)
    ensures EvalRows(SerpentineRows(ls, lt, ms, mt), t).u == Lin(ls, ls - lt, t) * Lin(ms, ms - mt, t)
  {
    var b, e := ls - lt, ms - mt;
    var r := SerpentineRows(ls, lt, ms, mt);
    ProductRows(ls, lt, ms, mt, b, e);
    BernsteinCongruent(r.m0.u, r.m1.u, r.m2.u, r.m3.u,
                       ls * ms, (ls * ms + ls * e + b * ms) / 3.0, (ls * e + b * ms + b * e) / 3.0, b * e, t);
    BernsteinOfProduct2(ls, b, ms, e, t);
  }

  /** The Bernstein coefficients of a product of two linear forms, raised to degree three. */
  lemma BernsteinOfProduct2(a: real, b: real, c: real, e: real, t: real)
    ensures Bernstein(a * c, (a * c + a * e + b * c) / 3.0, (a * e + b * c + b * e) / 3.0, b * e, t)
         == Lin(a, b, t) * Lin(c, e, t)
  {
    BernsteinOfQuadraticTimesLinear(a * c, a * e + b * c, b * e, 1.0, 1.0,
                                    a * c, (a * c + a * e + b * c) / 3.0, (a * e + b * c + b * e) / 3.0, b * e, t);
    assert Lin(1.0, 1.0, t) == 1.0;
    MulByOne(Quad(a * c, a * e + b * c, b * e, t), Lin(1.0, 1.0, t));
    LinProduct2(a, b, c, e, t);
  }

  /** The first-component rows shared by serpentines and loops are the Bernstein coefficients of L M. */
  lemma ProductRows(ls: real, lt: real, ms: real, mt: real, b: real, e: real)
    requires b == ls - lt && e == ms - mt
    ensures var r := SerpentineRows(ls, lt, ms, mt);
            && r.m0.u == ls * ms
            && r.m1.u == (ls * ms + ls * e + b * ms) / 3.0
            && r.m2.u == (ls * e + b * ms + b * e) / 3.0
            && r.m3.u == b * e
  {
  }

  lemma BernsteinCongruent(p0: real, p1: real, p2: real, p3: real,
                           q0: real, q1: real, q2: real, q3: real, t: real)
    requires p0 == q0 && p1 == q1 && p2 == q2 && p3 == q3
    ensures Bernstein(p0, p1, p2, p3, t) == Bernstein(q0, q1, q2, q3, t)
  {
  }

  /** The serpentine's cube rows for the line (p, q) are the Bernstein coefficients of its cube. */
  lemma CubeRows(p: real, q: real, t: real)
    ensures Bernstein(p * p * p, p * p * (p - q), (q - p) * (q - p) * p, -(q - p) * (q - p) * (q - p), t)
         == Lin(p, p - q, t) * Lin(p, p - q, t) * Lin(p, p - q, t)
  {
    var b := p - q;
    CubeCoefficients(p, q, b);
    BernsteinCongruent(p * p * p, p * p * (p - q), (q - p) * (q - p) * p, -(q - p) * (q - p) * (q - p),
                       p * p * p, (b * p * p + p * b * p + p * p * b) / 3.0,
                       (p * b * b + b * p * b + b * b * p) / 3.0, b * b * b, t);
    BernsteinOfProduct(p, b, p, b, p, b, t);
  }

  lemma CubeCoefficients(p: real, q: real, b: real)
    requires b == p - q
    ensures p * p * (p - q) == (b * p * p + p * b * p + p * p * b) / 3.0
    ensures (q - p) * (q - p) * p == (p * b * b + b * p * b + b * b * p) / 3.0
    ensures -(q - p) * (q - p) * (q - p) == b * b * b
  {
  }

  lemma ImplicitOfCubes(u: real, v: real, w: real, x: real, y: real)
    requires u == x * y && v == x * x * x && w == y * y * y
    ensures Implicit(TexCoord3(u, v, w)) == 0.0
  {
    CubeOfProduct(x, y);
  }

  lemma ImplicitOfLoopProducts(u: real, v: real, w: real, x: real, y: real)
    requires u == x * y && v == x * x * y && w == x * y * y
    ensures Implicit(TexCoord3(u, v, w)) == 0.0
  {
    assert (x * y) * (x * y) * (x * y) == (x * x * y) * (x * y * y);
  }

  lemma LoopOnZeroSet(ls: real, lt: real, ms: real, mt: real, t: real)
    ensures Implicit(EvalRows(LoopRows(ls, lt, ms, mt), t)) == 0.0
  {
    LoopFirst(ls, lt, ms, mt, t);
    LoopSecond(ls, lt, ms, mt, t);
    LoopThird(ls, lt, ms, mt, t);
    ImplicitOfLoopProducts(EvalRows(LoopRows(ls, lt, ms, mt), t).u, EvalRows(LoopRows(ls, lt, ms, mt), t).v,
                           EvalRows(LoopRows(ls, lt, ms, mt), t).w, Lin(ls, ls - lt, t), Lin(ms, ms - mt, t));
  }

  lemma LoopFirst(ls: real, lt: real, ms: real, mt: real, t: real)
    ensures EvalRows(LoopRows(ls, lt, ms, mt), t).u == Lin(ls, ls - lt, t) * Lin(ms, ms - mt, t)
  {
    SerpentineFirst(ls, lt, ms, mt, t);
    assert LoopRows(ls, lt, ms, mt).m0.u == SerpentineRows(ls, lt, ms, mt).m0.u;
    assert LoopRows(ls, lt, ms, mt).m1.u == SerpentineRows(ls, lt, ms, mt).m1.u;
    assert LoopRows(ls, lt, ms, mt).m2.u == SerpentineRows(ls, lt, ms, mt).m2.u;
    assert LoopRows(ls, lt, ms, mt).m3.u == SerpentineRows(ls, lt, ms, mt).m3.u;
  }

  lemma LoopSecond(ls: real, lt: real, ms: real, mt: real, t: real)
    ensures EvalRows(LoopRows(ls, lt, ms, mt), t).v
         == Lin(ls, ls - lt, t) * Lin(ls, ls - lt, t) * Lin(ms, ms - mt, t)
  {
    var b, e := ls - lt, ms - mt;
    var r := LoopRows(ls, lt, ms, mt);
    var q0, q1, q2, q3 := ls * ls * ms, (b * ls * ms + ls * b * ms + ls * ls * e) / 3.0,
                          (ls * b * e + b * ls * e + b * b * ms) / 3.0, b * b * e;
    assert Bernstein(r.m0.v, r.m1.v, r.m2.v, r.m3.v, t) == Bernstein(q0, q1, q2, q3, t) by {
      LoopCoefficientsL2M(ls, lt, ms, mt, b, e);
      BernsteinCongruent(r.m0.v, r.m1.v, r.m2.v, r.m3.v, q0, q1, q2, q3, t);
    }
    assert Bernstein(q0, q1, q2, q3, t) == Lin(ls, b, t) * Lin(ls, b, t) * Lin(ms, e, t) by {
      BernsteinOfProduct(ls, b, ls, b, ms, e, t);
    }
  }

  lemma LoopThird(ls: real, lt: real, ms: real, mt: real, t: real)
    ensures EvalRows(LoopRows(ls, lt, ms, mt), t).w
         == Lin(ls, ls - lt, t) * Lin(ms, ms - mt, t) * Lin(ms, ms - mt, t)
  {
    var b, e := ls - lt, ms - mt;
    var r := LoopRows(ls, lt, ms, mt);
    var q0, q1, q2, q3 := ls * ms * ms, (b * ms * ms + ls * e * ms + ls * ms * e) / 3.0,
                          (ls * e * e + b * ms * e + b * e * ms) / 3.0, b * e * e;
    assert Bernstein(r.m0.w, r.m1.w, r.m2.w, r.m3.w, t) == Bernstein(q0, q1, q2, q3, t) by {
      LoopCoefficientsLM2(ls, lt, ms, mt, b, e);
      BernsteinCongruent(r.m0.w, r.m1.w, r.m2.w, r.m3.w, q0, q1, q2, q3, t);
    }
    assert Bernstein(q0, q1, q2, q3, t) == Lin(ls, b, t) * Lin(ms, e, t) * Lin(ms, e, t) by {
      BernsteinOfProduct(ls, b, ms, e, ms, e, t);
    }
  }

  /** The loop's second-component rows are the Bernstein coefficients of L^2 M. */
  lemma LoopCoefficientsL2M(ls: real, lt: real, ms: real, mt: real, b: real, e: real)
    requires b == ls - lt && e == ms - mt
    ensures var r := LoopRows(ls, lt, ms, mt);
            && r.m0.v == ls * ls * ms
            && r.m1.v == (b * ls * ms + ls * b * ms + ls * ls * e) / 3.0
            && r.m2.v == (ls * b * e + b * ls * e + b * b * ms) / 3.0
            && r.m3.v == b * b * e
  {
    LoopRowL2M1(ls, lt, ms, mt, b, e);
    LoopRowL2M2(ls, lt, ms, mt, b, e);
  }

  lemma LoopRowL2M1(ls: real, lt: real, ms: real, mt: real, b: real, e: real)
    requires b == ls - lt && e == ms - mt
    ensures LoopRows(ls, lt, ms, mt).m1.v == (b * ls * ms + ls * b * ms + ls * ls * e) / 3.0
  {
    assert b * ls * ms == ls * ls * ms - ls * lt * ms;
    assert ls * b * ms == b * ls * ms;
    assert ls * ls * e == ls * ls * ms - ls * ls * mt;
  }

  lemma LoopRowL2M2(ls: real, lt: real, ms: real, mt: real, b: real, e: real)
    requires b == ls - lt && e == ms - mt
    ensures LoopRows(ls, lt, ms, mt).m2.v == (ls * b * e + b * ls * e + b * b * ms) / 3.0
  {
    assert ls * b * e == ls * ls * ms - ls * ls * mt - ls * lt * ms + ls * lt * mt;
    assert b * b * ms == ls * ls * ms - 2.0 * ls * lt * ms + lt * lt * ms;
    assert b * ls * e == ls * b * e;
    assert (lt - ls) * (ls * (2.0 * mt - 3.0 * ms) + lt * ms)
        == 3.0 * ls * ls * ms - 2.0 * ls * ls * mt - 4.0 * ls * lt * ms + 2.0 * ls * lt * mt + lt * lt * ms;
  }

  /** The loop's third-component rows are the Bernstein coefficients of L M^2. */
  lemma LoopCoefficientsLM2(ls: real, lt: real, ms: real, mt: real, b: real, e: real)
    requires b == ls - lt && e == ms - mt
    ensures var r := LoopRows(ls, lt, ms, mt);
            && r.m0.w == ls * ms * ms
            && r.m1.w == (b * ms * ms + ls * e * ms + ls * ms * e) / 3.0
            && r.m2.w == (ls * e * e + b * ms * e + b * e * ms) / 3.0
            && r.m3.w == b * e * e
  {
    LoopRowLM21(ls, lt, ms, mt, b, e);
    LoopRowLM22(ls, lt, ms, mt, b, e);
  }

  lemma LoopRowLM21(ls: real, lt: real, ms: real, mt: real, b: real, e: real)
    requires b == ls - lt && e == ms - mt
    ensures LoopRows(ls, lt, ms, mt).m1.w == (b * ms * ms + ls * e * ms + ls * ms * e) / 3.0
  {
    assert b * ms * ms == ls * ms * ms - lt * ms * ms;
    assert ls * e * ms == ls * ms * ms - ls * ms * mt;
    assert ls * ms * e == ls * e * ms;
  }

  lemma LoopRowLM22(ls: real, lt: real, ms: real, mt: real, b: real, e: real)
    requires b == ls - lt && e == ms - mt
    ensures LoopRows(ls, lt, ms, mt).m2.w == (ls * e * e + b * ms * e + b * e * ms) / 3.0
  {
    assert ls * e * e == ls * ms * ms - 2.0 * ls * ms * mt + ls * mt * mt;
    assert b * ms * e == ls * ms * ms - ls * ms * mt - lt * ms * ms + lt * ms * mt;
    assert b * e * ms == b * ms * e;
    assert (mt - ms) * (ls * (mt - 3.0 * ms) + 2.0 * lt * ms)
        == ls * mt * mt - 4.0 * ls * ms * mt + 2.0 * lt * ms * mt + 3.0 * ls * ms * ms - 2.0 * lt * ms * ms;
  }

  lemma BernsteinNegated(p0: real, p1: real, p2: real, p3: real, t: real)
    ensures Bernstein(-p0, -p1, -p2, -p3, t) == -Bernstein(p0, p1, p2, p3, t)
  {
  }

  /** Reversal keeps the zero set and swaps the sides of the curve. */
  lemma ReverseNegatesImplicit(r: Rows, t: real)
    ensures EvalRows(Reverse(r), t) == Flip(EvalRows(r, t))
    ensures Implicit(EvalRows(Reverse(r), t)) == -Implicit(EvalRows(r, t))
  {
    BernsteinNegated(r.m0.u, r.m1.u, r.m2.u, r.m3.u, t);
    BernsteinNegated(r.m0.v, r.m1.v, r.m2.v, r.m3.v, t);
    var e := EvalRows(r, t);
    FlipNegatesImplicit(e);
  }

  lemma FlipNegatesImplicit(e: TexCoord3)
    ensures Implicit(Flip(e)) == -Implicit(e)
  {
    assert (-e.u) * (-e.u) * (-e.u) == -(e.u * e.u * e.u);
  }

  /** Whatever the orientation, every drawn cubic lies on the zero set of its interpolated k^3 - l m. */
  lemma CurveOnZeroSet(cp: Spline, sqrt: real -> real, t: real)
    requires SplineTexCoords(cp, sqrt).Some?
    ensures Implicit(EvalRows(SplineTexCoords(cp, sqrt).value, t)) == 0.0
  {
    var d := CubicDiscriminants(cp);
    var (base, rev) := BaseRows(d, sqrt);
    BaseRowsOnZeroSet(d, sqrt, t);
    ReverseNegatesImplicit(base, t);
  }

  // ---------------------------------------------------------------------
  // Drawing the buffered splines
  // ---------------------------------------------------------------------

  /** The rows each cubic is drawn with, as a function for the drawing loop. */
  function RowsOf(sqrt: real -> real): Spline -> Option<Rows>
  {
    cp => SplineTexCoords(cp, sqrt)
  }

  /**
   * A drawn cubic's corners carry texture coordinates that interpolate to
   * the zero set of k^3 - l m along the curve; a line is not drawn.
   */
  lemma DrawingShadesCurve(cp: Spline, sqrt: real -> real, t: real)
    ensures Drawing(cp, RowsOf(sqrt)) == [] <==> Classify(CubicDiscriminants(cp)) == Line
    ensures var r := Drawing(cp, RowsOf(sqrt));
            r != [] ==>
              && |r| == 6 && r[0].tex.Some? && r[1].tex.Some? && r[2].tex.Some? && r[5].tex.Some?
              && Implicit(EvalRows(Rows(r[0].tex.value, r[1].tex.value, r[2].tex.value, r[5].tex.value), t)) == 0.0
  {
    if SplineTexCoords(cp, sqrt).Some? {
      CurveOnZeroSet(cp, sqrt, t);
      SplineStreamIsControlPolygon(cp, SplineTexCoords(cp, sqrt).value);
    }
  }

  /**
   * Draws one cubic: computes its oriented rows and, unless it is a line,
   * adds its two triangles to the mesh.
   */
  method FillSpline(mesh: Mesh, cp: Spline, sqrt: real -> real)
    requires mesh.Valid() && SplineShape(mesh)
    modifies mesh`numVertices, mesh`numIndices, mesh`box, mesh`issued
    modifies mesh.vertices, mesh.texCoords, mesh.indices, mesh.device
    ensures mesh.Valid() && SplineShape(mesh)
    ensures mesh.Stream() == old(mesh.Stream()) + Drawing(cp, RowsOf(sqrt))
    ensures mesh.box == DrawingBox(old(mesh.box), cp, RowsOf(sqrt))
  {
    DrawSpline(mesh, cp, RowsOf(sqrt));
  }

  /**
   * The GPU curve pass over a mesh whose triangles are already submitted:
   * draws every buffered cubic with its own rows.
   */
  method MeshGpuSplineFill(mesh: Mesh, sqrt: real -> real)
    requires mesh.Valid() && mesh.numVertices == 0 && mesh.numIndices == 0
    requires mesh.splines.Valid()
    modifies mesh`box, mesh.vertices, mesh.indices, mesh.device
    ensures StreamOf(mesh.device.submissions)
         == old(StreamOf(mesh.device.submissions)) + SplinesStream(old(mesh.splines.Contents), RowsOf(sqrt))
    ensures mesh.box == SplinesBox(old(mesh.box), old(mesh.splines.Contents), RowsOf(sqrt))
  {
    MeshSplineFill(mesh, RowsOf(sqrt));
  }
}
