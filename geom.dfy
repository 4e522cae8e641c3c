/**
 * Vector arithmetic, interpolation, de Casteljau subdivision of a cubic,
 * the orientation test of a control polygon and the layout of a cairo
 * affine matrix as a 4x4 GPU matrix.
 */
module GralMath {
  import opened GralTypes
  import opened GralColor
  import opened GralMatrix

  // ---------------------------------------------------------------------
  // Vectors
  // ---------------------------------------------------------------------

  function Add2(a: Vector2, b: Vector2): Vector2
  {
    Vector2(a.x + b.x, a.y + b.y)
  }

  function Sub2(a: Vector2, b: Vector2): Vector2
  {
    Vector2(a.x - b.x, a.y - b.y)
  }

  /** The z component of the 3-D cross product of two plane vectors. */
  function Cross2(a: Vector2, b: Vector2): real
  {
    a.x * b.y - a.y * b.x
  }

  function Cross3(a: Vector3, b: Vector3): Vector3
  {
    Vector3(a.y * b.z - a.z * b.y, a.z * b.x - a.x * b.z, a.x * b.y - a.y * b.x)
  }

  function Dot3(a: Vector3, b: Vector3): real
  {
    a.x * b.x + a.y * b.y + a.z * b.z
  }

  /** Determinant of the 3x3 matrix with rows a, b, c, by cofactor expansion along the first row. */
  function Det3(a: Vector3, b: Vector3, c: Vector3): real
  {
    a.x * (b.y * c.z - b.z * c.y) - a.y * (b.x * c.z - b.z * c.x) + a.z * (b.x * c.y - b.y * c.x)
  }

  /** Sum and difference are componentwise inverses. */
  lemma AddSubInverse(a: Vector2, b: Vector2)
    ensures Sub2(Add2(a, b), b) == a && Add2(Sub2(a, b), b) == a
  {
  }

  /** The plane cross product is antisymmetric, so it vanishes on equal vectors. */
  lemma Cross2Antisymmetric(a: Vector2, b: Vector2)
    ensures Cross2(a, b) == -Cross2(b, a)
    ensures Cross2(a, a) == 0.0
  {
  }

  /** The cross product of a and b is orthogonal to both. */
  lemma Cross3Orthogonal(a: Vector3, b: Vector3)
    ensures Dot3(a, Cross3(a, b)) == 0.0 && Dot3(b, Cross3(a, b)) == 0.0
  {
  }

  /** The scalar triple product a . (b x c) is the determinant with rows a, b, c. */
  lemma TripleProductIsDeterminant(a: Vector3, b: Vector3, c: Vector3)
    ensures Dot3(a, Cross3(b, c)) == Det3(a, b, c)
    ensures Dot3(a, Cross3(b, c)) == Dot3(b, Cross3(c, a)) == Dot3(c, Cross3(a, b))
  {
    NegMul(a.y, b.x * c.z - b.z * c.x);
    var e := TripleExpansion(a.x, a.y, a.z, b.x, b.y, b.z, c.x, c.y, c.z);
    assert e == TripleExpansion(b.x, b.y, b.z, c.x, c.y, c.z, a.x, a.y, a.z) by {
      TripleExpansionCyclic(a.x, a.y, a.z, b.x, b.y, b.z, c.x, c.y, c.z);
    }
    assert e == TripleExpansion(c.x, c.y, c.z, a.x, a.y, a.z, b.x, b.y, b.z) by {
      TripleExpansionCyclic(b.x, b.y, b.z, c.x, c.y, c.z, a.x, a.y, a.z);
    }
    TripleExpands(a.x, a.y, a.z, b.x, b.y, b.z, c.x, c.y, c.z);
    TripleExpands(b.x, b.y, b.z, c.x, c.y, c.z, a.x, a.y, a.z);
    TripleExpands(c.x, c.y, c.z, a.x, a.y, a.z, b.x, b.y, b.z);
  }

  /** The six signed monomials of a . (b x c). */
  function TripleExpansion(a1: real, a2: real, a3: real, b1: real, b2: real, b3: real,
                           c1: real, c2: real, c3: real): real
  {
    a1 * b2 * c3 - a1 * b3 * c2 + a2 * b3 * c1 - a2 * b1 * c3 + a3 * b1 * c2 - a3 * b2 * c1
  }

  lemma TripleExpands(a1: real, a2: real, a3: real, b1: real, b2: real, b3: real,
                      c1: real, c2: real, c3: real)
    ensures Dot3(Vector3(a1, a2, a3), Cross3(Vector3(b1, b2, b3), Vector3(c1, c2, c3)))
         == TripleExpansion(a1, a2, a3, b1, b2, b3, c1, c2, c3)
  {
    Distribute2(a1, b2 * c3, b3 * c2);
    Distribute2(a2, b3 * c1, b1 * c3);
    Distribute2(a3, b1 * c2, b2 * c1);
  }

  /** Rotating the three rows permutes the monomials among themselves. */
  lemma TripleExpansionCyclic(a1: real, a2: real, a3: real, b1: real, b2: real, b3: real,
                              c1: real, c2: real, c3: real)
    ensures TripleExpansion(a1, a2, a3, b1, b2, b3, c1, c2, c3) == TripleExpansion(b1, b2, b3, c1, c2, c3, a1, a2, a3)
  {
    MulRotate(a1, b2, c3);
    MulRotate(a1, b3, c2);
    MulRotate(a2, b3, c1);
    MulRotate(a2, b1, c3);
    MulRotate(a3, b1, c2);
    MulRotate(a3, b2, c1);
  }

  lemma MulRotate(x: real, y: real, z: real)
    ensures x * y * z == y * z * x
  {
  }

  lemma Distribute2(x: real, y: real, z: real)
    ensures x * (y - z) == x * y - x * z
  {
  }

  lemma NegMul(x: real, y: real)
    ensures x * (-y) == -(x * y) && (-x) * y == -(x * y)
  {
  }

  // ---------------------------------------------------------------------
  // Interpolation
  // ---------------------------------------------------------------------

  function Lerp(a: real, b: real, t: real): real
  {
    a + t * (b - a)
  }

  /** Lerp meets its ends at t = 0 and t = 1 and is the affine mix (1-t)a + tb. */
  lemma LerpEnds(a: real, b: real, t: real)
    ensures Lerp(a, b, 0.0) == a && Lerp(a, b, 1.0) == b
    ensures Lerp(a, b, t) == a * (1.0 - t) + b * t
    ensures Lerp(a, b, t) == Lerp(b, a, 1.0 - t)
  {
  }

  /** Interpolation of colours, component by component. */
  function ColorLerp(c1: Color, c2: Color, t: real): (c: Color)
    ensures t == 0.0 ==> c == c1
    ensures t == 1.0 ==> c == c2
    ensures c.r == Lerp(c1.r, c2.r, t) && c.g == Lerp(c1.g, c2.g, t)
    ensures c.b == Lerp(c1.b, c2.b, t) && c.a == Lerp(c1.a, c2.a, t)
  {
    Color(Lerp(c1.r, c2.r, t), Lerp(c1.g, c2.g, t), Lerp(c1.b, c2.b, t), Lerp(c1.a, c2.a, t))
  }

  /** Interpolating a colour with itself gives that colour at every t. */
  lemma ColorLerpSame(c: Color, t: real)
    ensures ColorLerp(c, c, t) == c
  {
  }

  // ---------------------------------------------------------------------
  // de Casteljau subdivision
  // ---------------------------------------------------------------------

  /** The scalar a(1-t) + bt, as the subdivision writes it. */
  function MixS(a: real, b: real, t: real): real
  {
    a * (1.0 - t) + b * t
  }

  function Mix(a: Vector2, b: Vector2, t: real): Vector2
  {
    Vector2(MixS(a.x, b.x, t), MixS(a.y, b.y, t))
  }

  /**
   * Splits a cubic at parameter t into the part before t and the part after
   * it. The results are values, so the input may be one of the outputs.
   */
  function Subdivide(t: real, s: Spline): (halves: (Spline, Spline))
  {
    var p01 := Mix(s.k0, s.k1, t);
    var p12 := Mix(s.k1, s.k2, t);
    var p23 := Mix(s.k2, s.k3, t);
    var p012 := Mix(p01, p12, t);
    var p123 := Mix(p12, p23, t);
    var p0123 := Mix(p012, p123, t);
    (Spline(s.k0, p01, p012, p0123), Spline(p0123, p123, p23, s.k3))
  }

  /** The point of a cubic at parameter u, in Bernstein form. */
  function Eval(s: Spline, u: real): Vector2
  {
    Vector2(Bernstein(s.k0.x, s.k1.x, s.k2.x, s.k3.x, u),
            Bernstein(s.k0.y, s.k1.y, s.k2.y, s.k3.y, u))
  }

  function Bernstein(p0: real, p1: real, p2: real, p3: real, u: real): real
  {
    var v := 1.0 - u;
    v * v * v * p0 + 3.0 * v * v * u * p1 + 3.0 * v * u * u * p2 + u * u * u * p3
  }

  /** The halves keep the outer knots; the inner knots are the first-round lerps. */
  lemma SubdivideEnds(t: real, s: Spline)
    ensures Subdivide(t, s).0.k0 == s.k0
    ensures Subdivide(t, s).1.k3 == s.k3
    ensures Subdivide(t, s).0.k1 == Vector2(Lerp(s.k0.x, s.k1.x, t), Lerp(s.k0.y, s.k1.y, t))
    ensures Subdivide(t, s).1.k2 == Vector2(Lerp(s.k2.x, s.k3.x, t), Lerp(s.k2.y, s.k3.y, t))
  {
    LerpIsMix(s.k0.x, s.k1.x, t);
    LerpIsMix(s.k0.y, s.k1.y, t);
    LerpIsMix(s.k2.x, s.k3.x, t);
    LerpIsMix(s.k2.y, s.k3.y, t);
  }

  lemma LerpIsMix(a: real, b: real, t: real)
    ensures Lerp(a, b, t) == MixS(a, b, t)
  {
  }

  /** The halves meet at the point of the curve at parameter t. */
  lemma SubdivideJoin(t: real, s: Spline)
    ensures Subdivide(t, s).0.k3 == Subdivide(t, s).1.k0 == Eval(s, t)
  {
    MixedBernsteinAtT(s.k0.x, s.k1.x, s.k2.x, s.k3.x, t);
    MixedBernsteinAtT(s.k0.y, s.k1.y, s.k2.y, s.k3.y, t);
  }

  /** The three rounds of mixing compute the Bernstein value at t. */
  lemma MixedBernsteinAtT(p0: real, p1: real, p2: real, p3: real, t: real)
    ensures MixS(MixS(MixS(p0, p1, t), MixS(p1, p2, t), t), MixS(MixS(p1, p2, t), MixS(p2, p3, t), t), t)
         == Bernstein(p0, p1, p2, p3, t)
  {
    var v := 1.0 - t;
    var q012 := MixS(MixS(p0, p1, t), MixS(p1, p2, t), t);
    var q123 := MixS(MixS(p1, p2, t), MixS(p2, p3, t), t);
    assert q012 == v * v * p0 + 2.0 * v * t * p1 + t * t * p2 by { SecondRound(v, t, p0, p1, p2); }
    assert q123 == v * v * p1 + 2.0 * v * t * p2 + t * t * p3 by { SecondRound(v, t, p1, p2, p3); }
    ThirdRound(v, t, p0, p1, p2, p3);
  }

  /** Two rounds of mixing with weights v and t give the quadratic Bernstein form. */
  lemma SecondRound(v: real, t: real, p0: real, p1: real, p2: real)
    ensures (p0 * v + p1 * t) * v + (p1 * v + p2 * t) * t == v * v * p0 + 2.0 * v * t * p1 + t * t * p2
  {
  }

  lemma ThirdRound(v: real, t: real, p0: real, p1: real, p2: real, p3: real)
    ensures (v * v * p0 + 2.0 * v * t * p1 + t * t * p2) * v + (v * v * p1 + 2.0 * v * t * p2 + t * t * p3) * t
         == v * v * v * p0 + 3.0 * v * v * t * p1 + 3.0 * v * t * t * p2 + t * t * t * p3
  {
  }

  /** Splitting at 0 leaves the whole curve on the right; at 1, on the left. */
  lemma SubdivideAtEnds(s: Spline)
    ensures Subdivide(0.0, s).1 == s
    ensures Subdivide(1.0, s).0 == s
  {
  }

  /**
   * Each half traces its part of the curve: the left half at local parameter
   * u is the cubic at t u, the right half at u is the cubic at t + (1 - t) u.
   */
  lemma SubdivideTraces(t: real, s: Spline, u: real)
    ensures Eval(Subdivide(t, s).0, u) == Eval(s, t * u)
    ensures Eval(Subdivide(t, s).1, u) == Eval(s, t + (1.0 - t) * u)
  {
    LeftHalfTraces(s.k0.x, s.k1.x, s.k2.x, s.k3.x, t, u);
    LeftHalfTraces(s.k0.y, s.k1.y, s.k2.y, s.k3.y, t, u);
    RightHalfTraces(s.k0.x, s.k1.x, s.k2.x, s.k3.x, t, u);
    RightHalfTraces(s.k0.y, s.k1.y, s.k2.y, s.k3.y, t, u);
  }

  /** One coordinate of the left half, as a polynomial identity in t and u. */
  lemma LeftHalfTraces(p0: real, p1: real, p2: real, p3: real, t: real, u: real)
    ensures var q01 := MixS(p0, p1, t);
            var q012 := MixS(q01, MixS(p1, p2, t), t);
            var q123 := MixS(MixS(p1, p2, t), MixS(p2, p3, t), t);
            Bernstein(p0, q01, q012, MixS(q012, q123, t), u) == Bernstein(p0, p1, p2, p3, t * u)
  {
    var v, w := 1.0 - t, 1.0 - u;
    var q01 := MixS(p0, p1, t);
    var q012 := MixS(q01, MixS(p1, p2, t), t);
    var d := MixS(q012, MixS(MixS(p1, p2, t), MixS(p2, p3, t), t), t);
    MixForm(p0, p1, t, v);
    SecondRoundForm(p0, p1, p2, t, v);
    CubicForm(p0, p1, p2, p3, t, v);
    LeftHalfCore(v, t, w, u, t * u, w * w * w, 3.0 * w * w * u, 3.0 * w * u * u, u * u * u, p0, p1, p2, p3, q01, q012, d);
  }

  /**
   * The left half's identity with its control points given in Bernstein form
   * in t; A, B, C and E are the four Bernstein weights in u.
   */
  lemma LeftHalfCore(v: real, t: real, w: real, u: real, s: real, A: real, B: real, C: real, E: real,
                     p0: real, p1: real, p2: real, p3: real, q01: real, q012: real, d: real)
    requires v == 1.0 - t && w == 1.0 - u && s == t * u
    requires A == w * w * w && B == 3.0 * w * w * u && C == 3.0 * w * u * u && E == u * u * u
    requires q01 == v * p0 + t * p1
    requires q012 == v * v * p0 + 2.0 * v * t * p1 + t * t * p2
    requires d == v * v * v * p0 + 3.0 * v * v * t * p1 + 3.0 * v * t * t * p2 + t * t * t * p3
    ensures Bernstein(p0, q01, q012, d, u) == Bernstein(p0, p1, p2, p3, s)
  {
    var a := w + v * u;
    calc {
      Bernstein(p0, q01, q012, d, u);
      { NamedWeights(p0, q01, q012, d, u, w, A, B, C, E); }
      A * p0 + B * q01 + C * q012 + E * d;
      { WeightedRegroup(A, B, C, E, v, t, p0, p1, p2, p3, q01, q012, d); }
      (A + B * v + C * (v * v) + E * (v * v * v)) * p0
        + (B * t + C * (2.0 * v * t) + E * (3.0 * v * v * t)) * p1
        + (C * (t * t) + E * (3.0 * v * t * t)) * p2
        + (E * (t * t * t)) * p3;
      { LeftCoefficients(v, t, w, u, s, A, B, C, E); }
      (a * a * a) * p0 + (3.0 * a * a * s) * p1 + (3.0 * a * s * s) * p2 + (s * s * s) * p3;
      { LeftCoefficients(v, t, w, u, s, A, B, C, E); BernsteinWeights(p0, p1, p2, p3, s, a); }
      Bernstein(p0, p1, p2, p3, s);
    }
  }

  lemma NamedWeights(p0: real, p1: real, p2: real, p3: real, u: real, w: real, A: real, B: real, C: real, E: real)
    requires w == 1.0 - u
    requires A == w * w * w && B == 3.0 * w * w * u && C == 3.0 * w * u * u && E == u * u * u
    ensures Bernstein(p0, p1, p2, p3, u) == A * p0 + B * p1 + C * p2 + E * p3
  {
    BernsteinWeights(p0, p1, p2, p3, u, w);
  }

  /** The left half's Bernstein form, collected by control point. */
  lemma WeightedRegroup(A: real, B: real, C: real, E: real, v: real, t: real,
                        p0: real, p1: real, p2: real, p3: real, q01: real, q012: real, d: real)
    requires q01 == v * p0 + t * p1
    requires q012 == v * v * p0 + 2.0 * v * t * p1 + t * t * p2
    requires d == v * v * v * p0 + 3.0 * v * v * t * p1 + 3.0 * v * t * t * p2 + t * t * t * p3
    ensures A * p0 + B * q01 + C * q012 + E * d
         == (A + B * v + C * (v * v) + E * (v * v * v)) * p0
          + (B * t + C * (2.0 * v * t) + E * (3.0 * v * v * t)) * p1
          + (C * (t * t) + E * (3.0 * v * t * t)) * p2
          + (E * (t * t * t)) * p3
  {
    calc {
      A * p0 + B * q01 + C * q012 + E * d;
      { Spread2(B, v, t, p0, p1, q01);
        Spread3(C, v * v, 2.0 * v * t, t * t, p0, p1, p2, q012);
        Spread4(E, v * v * v, 3.0 * v * v * t, 3.0 * v * t * t, t * t * t, p0, p1, p2, p3, d); }
      A * p0 + ((B * v) * p0 + (B * t) * p1)
        + ((C * (v * v)) * p0 + (C * (2.0 * v * t)) * p1 + (C * (t * t)) * p2)
        + ((E * (v * v * v)) * p0 + (E * (3.0 * v * v * t)) * p1 + (E * (3.0 * v * t * t)) * p2 + (E * (t * t * t)) * p3);
      { Collect(A, B * v, B * t, C * (v * v), C * (2.0 * v * t), C * (t * t),
                E * (v * v * v), E * (3.0 * v * v * t), E * (3.0 * v * t * t), E * (t * t * t), p0, p1, p2, p3); }
      (A + B * v + C * (v * v) + E * (v * v * v)) * p0
        + (B * t + C * (2.0 * v * t) + E * (3.0 * v * v * t)) * p1
        + (C * (t * t) + E * (3.0 * v * t * t)) * p2
        + (E * (t * t * t)) * p3;
    }
  }

  /** Collecting the ten terms of the left half by control point. */
  lemma Collect(a: real, b0: real, b1: real, c0: real, c1: real, c2: real, e0: real, e1: real, e2: real, e3: real,
                p0: real, p1: real, p2: real, p3: real)
    ensures a * p0 + (b0 * p0 + b1 * p1) + (c0 * p0 + c1 * p1 + c2 * p2) + (e0 * p0 + e1 * p1 + e2 * p2 + e3 * p3)
         == (a + b0 + c0 + e0) * p0 + (b1 + c1 + e1) * p1 + (c2 + e2) * p2 + e3 * p3
  {
  }

  /** The collected coefficients are the Bernstein weights at s = t u. */
  lemma LeftCoefficients(v: real, t: real, w: real, u: real, s: real, A: real, B: real, C: real, E: real)
    requires v == 1.0 - t && w == 1.0 - u && s == t * u
    requires A == w * w * w && B == 3.0 * w * w * u && C == 3.0 * w * u * u && E == u * u * u
    ensures 1.0 - s == w + v * u
    ensures A + B * v + C * (v * v) + E * (v * v * v) == (w + v * u) * (w + v * u) * (w + v * u)
    ensures B * t + C * (2.0 * v * t) + E * (3.0 * v * v * t) == 3.0 * (w + v * u) * (w + v * u) * s
    ensures C * (t * t) + E * (3.0 * v * t * t) == 3.0 * (w + v * u) * s * s
    ensures E * (t * t * t) == s * s * s
  {
  }

  /** One coordinate of the right half, as a polynomial identity in t and u. */
  lemma RightHalfTraces(p0: real, p1: real, p2: real, p3: real, t: real, u: real)
    ensures var q23 := MixS(p2, p3, t);
            var q123 := MixS(MixS(p1, p2, t), q23, t);
            var q012 := MixS(MixS(p0, p1, t), MixS(p1, p2, t), t);
            Bernstein(MixS(q012, q123, t), q123, q23, p3, u) == Bernstein(p0, p1, p2, p3, t + (1.0 - t) * u)
  {
    var v := 1.0 - t;
    var c := MixS(p2, p3, t);
    var bc := MixS(MixS(p1, p2, t), c, t);
    var d := MixS(MixS(MixS(p0, p1, t), MixS(p1, p2, t), t), bc, t);
    MixForm(p2, p3, t, v);
    SecondRoundForm(p1, p2, p3, t, v);
    CubicForm(p0, p1, p2, p3, t, v);
    RightHalfCore(v, t, 1.0 - u, u, t + (1.0 - t) * u, p0, p1, p2, p3, d, bc, c);
  }

  /** First, second and third rounds of mixing in Bernstein form in t, with v = 1 - t. */
  lemma MixForm(p0: real, p1: real, t: real, v: real)
    requires v == 1.0 - t
    ensures MixS(p0, p1, t) == v * p0 + t * p1
  {
  }

  lemma CubicForm(p0: real, p1: real, p2: real, p3: real, t: real, v: real)
    requires v == 1.0 - t
    ensures MixS(MixS(MixS(p0, p1, t), MixS(p1, p2, t), t), MixS(MixS(p1, p2, t), MixS(p2, p3, t), t), t)
         == v * v * v * p0 + 3.0 * v * v * t * p1 + 3.0 * v * t * t * p2 + t * t * t * p3
  {
    MixedBernsteinAtT(p0, p1, p2, p3, t);
    BernsteinWeights(p0, p1, p2, p3, t, v);
  }

  lemma SecondRoundForm(p1: real, p2: real, p3: real, t: real, v: real)
    requires v == 1.0 - t
    ensures MixS(MixS(p1, p2, t), MixS(p2, p3, t), t) == v * v * p1 + 2.0 * v * t * p2 + t * t * p3
  {
    SecondRound(v, t, p1, p2, p3);
  }

  /** The right half's identity with its control points given in Bernstein form in t. */
  lemma RightHalfCore(v: real, t: real, w: real, u: real, s: real, p0: real, p1: real, p2: real, p3: real, d: real, bc: real, c: real)
    requires v == 1.0 - t && w == 1.0 - u && s == t + v * u
    requires c == v * p2 + t * p3
    requires bc == v * v * p1 + 2.0 * v * t * p2 + t * t * p3
    requires d == v * v * v * p0 + 3.0 * v * v * t * p1 + 3.0 * v * t * t * p2 + t * t * t * p3
    ensures Bernstein(d, bc, c, p3, u) == Bernstein(p0, p1, p2, p3, s)
  {
    var a := v * w;
    calc {
      Bernstein(d, bc, c, p3, u);
      { BernsteinWeights(d, bc, c, p3, u, w); }
      (w * w * w) * d + (3.0 * w * w * u) * bc + (3.0 * w * u * u) * c + (u * u * u) * p3;
      { RightRegroup(v, t, w, u, p0, p1, p2, p3, d, bc, c); }
      (w * w * w * (v * v * v)) * p0
        + (3.0 * w * w * w * (v * v * t) + 3.0 * w * w * u * (v * v)) * p1
        + (3.0 * w * w * w * (v * t * t) + 6.0 * w * w * u * (v * t) + 3.0 * w * u * u * v) * p2
        + (w * w * w * (t * t * t) + 3.0 * w * w * u * (t * t) + 3.0 * w * u * u * t + u * u * u) * p3;
      { RightCoefficients(v, t, w, u, s); }
      (a * a * a) * p0 + (3.0 * a * a * s) * p1 + (3.0 * a * s * s) * p2 + (s * s * s) * p3;
      { RightCoefficients(v, t, w, u, s); BernsteinWeights(p0, p1, p2, p3, s, a); }
      Bernstein(p0, p1, p2, p3, s);
    }
  }

  /** The Bernstein form with its four weights written out, given w = 1 - u. */
  lemma BernsteinWeights(p0: real, p1: real, p2: real, p3: real, u: real, w: real)
    requires w == 1.0 - u
    ensures Bernstein(p0, p1, p2, p3, u) == (w * w * w) * p0 + (3.0 * w * w * u) * p1 + (3.0 * w * u * u) * p2 + (u * u * u) * p3
  {
  }

  /** The right half's Bernstein form, collected by control point. */
  lemma RightRegroup(v: real, t: real, w: real, u: real, p0: real, p1: real, p2: real, p3: real, d: real, bc: real, c: real)
    requires c == v * p2 + t * p3
    requires bc == v * v * p1 + 2.0 * v * t * p2 + t * t * p3
    requires d == v * v * v * p0 + 3.0 * v * v * t * p1 + 3.0 * v * t * t * p2 + t * t * t * p3
    ensures w * w * w * d + 3.0 * w * w * u * bc + 3.0 * w * u * u * c + u * u * u * p3
         == (w * w * w * (v * v * v)) * p0
          + (3.0 * w * w * w * (v * v * t) + 3.0 * w * w * u * (v * v)) * p1
          + (3.0 * w * w * w * (v * t * t) + 6.0 * w * w * u * (v * t) + 3.0 * w * u * u * v) * p2
          + (w * w * w * (t * t * t) + 3.0 * w * w * u * (t * t) + 3.0 * w * u * u * t + u * u * u) * p3
  {
    Distribute(w * w * w, v * v * v, 3.0 * (v * v * t), 3.0 * (v * t * t), t * t * t, p0, p1, p2, p3);
    Distribute(3.0 * w * w * u, 0.0, v * v, 2.0 * (v * t), t * t, p0, p1, p2, p3);
    Distribute(3.0 * w * u * u, 0.0, 0.0, v, t, p0, p1, p2, p3);
  }

  /** A weight spread over a control point given in Bernstein form. */
  lemma Spread2(k: real, a0: real, a1: real, p0: real, p1: real, q: real)
    requires q == a0 * p0 + a1 * p1
    ensures k * q == (k * a0) * p0 + (k * a1) * p1
  {
  }

  lemma Spread3(k: real, a0: real, a1: real, a2: real, p0: real, p1: real, p2: real, q: real)
    requires q == a0 * p0 + a1 * p1 + a2 * p2
    ensures k * q == (k * a0) * p0 + (k * a1) * p1 + (k * a2) * p2
  {
  }

  lemma Spread4(k: real, a0: real, a1: real, a2: real, a3: real, p0: real, p1: real, p2: real, p3: real, q: real)
    requires q == a0 * p0 + a1 * p1 + a2 * p2 + a3 * p3
    ensures k * q == (k * a0) * p0 + (k * a1) * p1 + (k * a2) * p2 + (k * a3) * p3
  {
  }

  lemma Distribute(k: real, a0: real, a1: real, a2: real, a3: real, p0: real, p1: real, p2: real, p3: real)
    ensures k * (a0 * p0 + a1 * p1 + a2 * p2 + a3 * p3) == (k * a0) * p0 + (k * a1) * p1 + (k * a2) * p2 + (k * a3) * p3
  {
  }

  /** The collected coefficients are the Bernstein weights at s = w t + u. */
  lemma RightCoefficients(v: real, t: real, w: real, u: real, s: real)
    requires v == 1.0 - t && w == 1.0 - u && s == t + v * u
    ensures w * w * w * (v * v * v) == (v * w) * (v * w) * (v * w)
    ensures 3.0 * w * w * w * (v * v * t) + 3.0 * w * w * u * (v * v) == 3.0 * (v * w) * (v * w) * s
    ensures 3.0 * w * w * w * (v * t * t) + 6.0 * w * w * u * (v * t) + 3.0 * w * u * u * v == 3.0 * (v * w) * s * s
    ensures w * w * w * (t * t * t) + 3.0 * w * w * u * (t * t) + 3.0 * w * u * u * t + u * u * u == s * s * s
    ensures 1.0 - s == v * w
  {
  }

  // ---------------------------------------------------------------------
  // Orientation of a control polygon
  // ---------------------------------------------------------------------

  /**
   * The signed area term used to decide the orientation: of the two cross
   * products of consecutive edge vectors from p0, the one with the larger
   * magnitude, the first one on ties.
   */
  function OrientationAngle(p: Spline): real
  {
    var d01 := Sub2(p.k1, p.k0);
    var d02 := Sub2(p.k2, p.k0);
    var d03 := Sub2(p.k3, p.k0);
    var angle1 := Cross2(d01, d02);
    var angle2 := Cross2(d02, d03);
    LargerMagnitude(angle1, angle2)
  }

  /** The one of two values with the larger magnitude, the first one on ties. */
  function LargerMagnitude(a1: real, a2: real): (m: real)
    ensures (m == a1 || m == a2) && Abs(m) >= Abs(a1) && Abs(m) >= Abs(a2)
    ensures Abs(a1) == Abs(a2) ==> m == a1
  {
    if Abs(a2) > Abs(a1) then a2 else a1
  }

  function Abs(x: real): real
  {
    if x < 0.0 then -x else x
  }

  /**
   * A control polygon is clockwise iff the chosen angle is positive: it is
   * when both corners at p0 turn positively (or the second is flat), and it
   * is not when neither corner turns positively.
   */
  function QuadIsClockwise(p: Spline): (clockwise: bool)
    ensures var a1 := Cross2(Sub2(p.k1, p.k0), Sub2(p.k2, p.k0));
            var a2 := Cross2(Sub2(p.k2, p.k0), Sub2(p.k3, p.k0));
            && (clockwise ==> a1 > 0.0 || a2 > 0.0)
            && (a1 > 0.0 && a2 >= 0.0 ==> clockwise)
            && (a1 >= 0.0 && a2 > 0.0 ==> clockwise)
            && (a1 <= 0.0 && a2 <= 0.0 ==> !clockwise)
  {
    OrientationAngle(p) > 0.0
  }

  function Translate(p: Spline, d: Vector2): Spline
  {
    Spline(Add2(p.k0, d), Add2(p.k1, d), Add2(p.k2, d), Add2(p.k3, d))
  }

  /** Only differences from p0 enter the test, so moving all knots changes nothing. */
  lemma ClockwiseTranslationInvariant(p: Spline, d: Vector2)
    ensures QuadIsClockwise(Translate(p, d)) == QuadIsClockwise(p)
  {
    var q := Translate(p, d);
    assert Sub2(q.k1, q.k0) == Sub2(p.k1, p.k0);
    assert Sub2(q.k2, q.k0) == Sub2(p.k2, p.k0);
    assert Sub2(q.k3, q.k0) == Sub2(p.k3, p.k0);
  }

  /** Mirroring the polygon in the x axis flips a strict orientation. */
  lemma ClockwiseMirror(p: Spline)
    requires OrientationAngle(p) != 0.0
    ensures QuadIsClockwise(Mirror(p)) == !QuadIsClockwise(p)
  {
    var q := Mirror(p);
    var d01, d02, d03 := Sub2(p.k1, p.k0), Sub2(p.k2, p.k0), Sub2(p.k3, p.k0);
    assert Sub2(q.k1, q.k0) == MirrorVector(d01);
    assert Sub2(q.k2, q.k0) == MirrorVector(d02);
    assert Sub2(q.k3, q.k0) == MirrorVector(d03);
    CrossOfMirrored(d01, d02);
    CrossOfMirrored(d02, d03);
  }

  function MirrorVector(a: Vector2): Vector2
  {
    Vector2(a.x, -a.y)
  }

  /** Mirroring both vectors negates their cross product. */
  lemma CrossOfMirrored(a: Vector2, b: Vector2)
    ensures Cross2(MirrorVector(a), MirrorVector(b)) == -Cross2(a, b)
  {
    NegMul(a.x, b.y);
    NegMul(a.y, b.x);
  }

  function Mirror(p: Spline): Spline
  {
    Spline(Vector2(p.k0.x, -p.k0.y), Vector2(p.k1.x, -p.k1.y),
           Vector2(p.k2.x, -p.k2.y), Vector2(p.k3.x, -p.k3.y))
  }

  // ---------------------------------------------------------------------
  // cairo matrix layout
  // ---------------------------------------------------------------------

  /** cairo's affine matrix: x' = xx x + xy y + x0, y' = yx x + yy y + y0. */
  datatype CairoMatrix = CairoMatrix(xx: real, yx: real, xy: real, yy: real, x0: real, y0: real)

  function CairoTransform(cm: CairoMatrix, x: real, y: real): Vector2
  {
    Vector2(cm.xx * x + cm.xy * y + cm.x0, cm.yx * x + cm.yy * y + cm.y0)
  }

  /** The determinant of the matrix's linear part. */
  function Determinant(cm: CairoMatrix): real
  {
    cm.xx * cm.yy - cm.xy * cm.yx
  }

  /** A cubic with every knot mapped by a cairo matrix. */
  function TransformSpline(cm: CairoMatrix, s: Spline): Spline
  {
    Spline(CairoTransform(cm, s.k0.x, s.k0.y), CairoTransform(cm, s.k1.x, s.k1.y),
           CairoTransform(cm, s.k2.x, s.k2.y), CairoTransform(cm, s.k3.x, s.k3.y))
  }

  /** The linear part of a cairo matrix applied to an edge vector. */
  function LinearPart(cm: CairoMatrix, w: Vector2): Vector2
  {
    Vector2(cm.xx * w.x + cm.xy * w.y, cm.yx * w.x + cm.yy * w.y)
  }

  /** An edge of a transformed polygon is the transformed edge. */
  lemma TransformedEdge(cm: CairoMatrix, p: Vector2, q: Vector2)
    ensures Sub2(CairoTransform(cm, q.x, q.y), CairoTransform(cm, p.x, p.y)) == LinearPart(cm, Sub2(q, p))
  {
  }

  /** The linear part scales every cross product by the determinant. */
  lemma CrossOfLinearPart(cm: CairoMatrix, u: Vector2, v: Vector2)
    ensures Cross2(LinearPart(cm, u), LinearPart(cm, v)) == Determinant(cm) * Cross2(u, v)
  {
  }

  /** The edge vectors from k0 of a transformed cubic. */
  lemma TransformedEdges(cm: CairoMatrix, s: Spline)
    ensures var t := TransformSpline(cm, s);
            && Sub2(t.k1, t.k0) == LinearPart(cm, Sub2(s.k1, s.k0))
            && Sub2(t.k2, t.k0) == LinearPart(cm, Sub2(s.k2, s.k0))
            && Sub2(t.k3, t.k0) == LinearPart(cm, Sub2(s.k3, s.k0))
  {
    TransformedEdge(cm, s.k0, s.k1);
    TransformedEdge(cm, s.k0, s.k2);
    TransformedEdge(cm, s.k0, s.k3);
  }

  lemma ScalingKeepsOrder(c: real, x: real, y: real)
    requires c > 0.0
    ensures c * x > c * y <==> x > y
  {
    assert c * x - c * y == c * (x - y);
  }

  lemma AbsOfProduct(x: real, y: real)
    ensures Abs(x * y) == Abs(x) * Abs(y)
  {
  }

  /**
   * An invertible cairo matrix scales the orientation term by its
   * determinant: the two corner areas scale alike, so the same one is chosen.
   */
  lemma OrientationAngleScales(cm: CairoMatrix, p: Spline)
    requires Determinant(cm) != 0.0
    ensures OrientationAngle(TransformSpline(cm, p)) == Determinant(cm) * OrientationAngle(p)
  {
    CornerScales(cm, p.k0, p.k1, p.k2);
    CornerScales(cm, p.k0, p.k2, p.k3);
    OrientationOfScaledCorners(p, TransformSpline(cm, p), Determinant(cm));
  }

  /** A cubic whose two corner areas are those of p scaled by D has orientation term D times p's. */
  lemma OrientationOfScaledCorners(p: Spline, q: Spline, D: real)
    requires D != 0.0
    requires Cross2(Sub2(q.k1, q.k0), Sub2(q.k2, q.k0)) == D * Cross2(Sub2(p.k1, p.k0), Sub2(p.k2, p.k0))
    requires Cross2(Sub2(q.k2, q.k0), Sub2(q.k3, q.k0)) == D * Cross2(Sub2(p.k2, p.k0), Sub2(p.k3, p.k0))
    ensures OrientationAngle(q) == D * OrientationAngle(p)
  {
    ScaledChoice(D, Cross2(Sub2(p.k1, p.k0), Sub2(p.k2, p.k0)), Cross2(Sub2(p.k2, p.k0), Sub2(p.k3, p.k0)),
                 Cross2(Sub2(q.k1, q.k0), Sub2(q.k2, q.k0)), Cross2(Sub2(q.k2, q.k0), Sub2(q.k3, q.k0)));
  }

  /** Choosing the larger of two magnitudes commutes with scaling by a non-zero D. */
  lemma ScaledChoice(D: real, a1: real, a2: real, b1: real, b2: real)
    requires D != 0.0 && b1 == D * a1 && b2 == D * a2
    ensures LargerMagnitude(b1, b2) == D * LargerMagnitude(a1, a2)
  {
    AbsScaledOrder(D, a2, a1);
  }

  /** The cross product of two edges from a common point scales by the determinant. */
  lemma CornerScales(cm: CairoMatrix, a: Vector2, b: Vector2, c: Vector2)
    ensures Cross2(Sub2(CairoTransform(cm, b.x, b.y), CairoTransform(cm, a.x, a.y)),
                   Sub2(CairoTransform(cm, c.x, c.y), CairoTransform(cm, a.x, a.y)))
         == Determinant(cm) * Cross2(Sub2(b, a), Sub2(c, a))
  {
    TransformedEdge(cm, a, b);
    TransformedEdge(cm, a, c);
    CrossOfLinearPart(cm, Sub2(b, a), Sub2(c, a));
  }

  /** A non-zero factor keeps the order of magnitudes. */
  lemma AbsScaledOrder(D: real, x: real, y: real)
    requires D != 0.0
    ensures Abs(D * x) > Abs(D * y) <==> Abs(x) > Abs(y)
  {
    var m := Abs(D);
    AbsOfProduct(D, x);
    AbsOfProduct(D, y);
    ScalingKeepsOrder(m, Abs(x), Abs(y));
  }

  /**
   * Under an invertible cairo matrix the clockwise test is kept when the
   * matrix preserves orientation and flipped, for a strictly oriented
   * polygon, when it reverses orientation.
   */
  lemma ClockwiseUnderTransform(cm: CairoMatrix, p: Spline)
    requires Determinant(cm) != 0.0
    ensures Determinant(cm) > 0.0 ==> QuadIsClockwise(TransformSpline(cm, p)) == QuadIsClockwise(p)
    ensures Determinant(cm) < 0.0 && OrientationAngle(p) != 0.0 ==>
              QuadIsClockwise(TransformSpline(cm, p)) == !QuadIsClockwise(p)
  {
    OrientationAngleScales(cm, p);
  }

  /** The affine matrix as a 4x4 matrix that leaves z and w alone. */
  function MatrixFromCairoMatrix(cm: CairoMatrix): (gm: Mat4)
    ensures gm.r2 == Vec4(0.0, 0.0, 1.0, 0.0) && gm.r3 == Vec4(0.0, 0.0, 0.0, 1.0)
  {
    Init(cm.xx, cm.xy, 0.0, cm.x0,
         cm.yx, cm.yy, 0.0, cm.y0,
         0.0, 0.0, 1.0, 0.0,
         0.0, 0.0, 0.0, 1.0)
  }

  /** On a point of the plane z = 0 the 4x4 matrix acts as the cairo transform. */
  lemma MatrixFromCairoActsAsCairo(cm: CairoMatrix, x: real, y: real, z: real)
    ensures var r := Apply(MatrixFromCairoMatrix(cm), Vec4(x, y, z, 1.0));
            Vector2(r.x, r.y) == CairoTransform(cm, x, y) && r.z == z && r.w == 1.0
  {
  }
}
