/**
 * The cubic classification shared by the fill tessellator and the GPU curve
 * pass (the Loop-Blinn scheme): the discriminants d1, d2, d3 computed from
 * scalar triple products of the lifted control points, the five kinds of
 * cubic they distinguish, the inflection (or double-point) parameters, and
 * the split of a cubic at those parameters.
 */
module Cubics {
  import opened GralTypes
  import opened GralMath

  /** A control point in homogeneous form (x, y, 1). */
  function Lift(p: Vector2): Vector3
  {
    Vector3(p.x, p.y, 1.0)
  }

  datatype Discriminants = Discriminants(d1: real, d2: real, d3: real)

  /**
   * a1 = b0 . (b3 x b2), a2 = b1 . (b0 x b3), a3 = b2 . (b1 x b0) over the
   * lifted knots b0..b3; then d1 = a1 - 2 a2 + 3 a3, d2 = -a2 + 3 a3,
   * d3 = 3 a3.
   */
  function CubicDiscriminants(s: Spline): Discriminants
  {
    var a1 := Dot3(Lift(s.k0), Cross3(Lift(s.k3), Lift(s.k2)));
    var a2 := Dot3(Lift(s.k1), Cross3(Lift(s.k0), Lift(s.k3)));
    var a3 := Dot3(Lift(s.k2), Cross3(Lift(s.k1), Lift(s.k0)));
    Discriminants(a1 - 2.0 * a2 + 3.0 * a3, -a2 + 3.0 * a3, 3.0 * a3)
  }

  /** The triple product of three lifted points is the signed area of their triangle. */
  lemma LiftedTripleProduct(p: Vector2, q: Vector2, r: Vector2)
    ensures Dot3(Lift(p), Cross3(Lift(q), Lift(r))) == Cross2(Sub2(q, p), Sub2(r, p))
  {
  }

  /** The discriminants written with the edge vectors w_i = k_i - k0. */
  lemma DiscriminantsFromEdges(s: Spline)
    ensures var w1 := Sub2(s.k1, s.k0);
            var w2 := Sub2(s.k2, s.k0);
            var w3 := Sub2(s.k3, s.k0);
            var a1 := Cross2(w3, w2);
            var a2 := -Cross2(w1, w3);
            var a3 := -Cross2(w1, w2);
            CubicDiscriminants(s) == Discriminants(a1 - 2.0 * a2 + 3.0 * a3, -a2 + 3.0 * a3, 3.0 * a3)
  {
    var w1, w2, w3 := Sub2(s.k1, s.k0), Sub2(s.k2, s.k0), Sub2(s.k3, s.k0);
    LiftedTripleProduct(s.k0, s.k3, s.k2);
    LiftedTripleProduct(s.k1, s.k0, s.k3);
    LiftedTripleProduct(s.k2, s.k1, s.k0);
    AreaRotates(s.k1, s.k0, s.k3);
    AreaRotates(s.k2, s.k1, s.k0);
    AreaRotates(s.k1, s.k0, s.k2);
    Cross2Antisymmetric(w3, w1);
    Cross2Antisymmetric(w2, w1);
  }

  /** The signed area of a triangle does not depend on which corner it is measured from. */
  lemma AreaRotates(p: Vector2, q: Vector2, r: Vector2)
    ensures Cross2(Sub2(q, p), Sub2(r, p)) == Cross2(Sub2(r, q), Sub2(p, q))
  {
  }

  /** Moving every knot by the same offset leaves the discriminants as they were. */
  lemma DiscriminantsTranslationInvariant(s: Spline, d: Vector2)
    ensures CubicDiscriminants(Translate(s, d)) == CubicDiscriminants(s)
  {
    DiscriminantsFromEdges(s);
    DiscriminantsFromEdges(Translate(s, d));
    var t := Translate(s, d);
    assert Sub2(t.k1, t.k0) == Sub2(s.k1, s.k0);
    assert Sub2(t.k2, t.k0) == Sub2(s.k2, s.k0);
    assert Sub2(t.k3, t.k0) == Sub2(s.k3, s.k0);
  }

  /**
   * Under a cairo matrix each discriminant is multiplied by the matrix's
   * determinant: the edge vectors go through the linear part, which scales
   * every cross product by the determinant, and the offset cancels.
   */
  lemma DiscriminantsScale(cm: CairoMatrix, s: Spline)
    ensures var d := CubicDiscriminants(s);
            var D := Determinant(cm);
            CubicDiscriminants(TransformSpline(cm, s)) == Discriminants(D * d.d1, D * d.d2, D * d.d3)
  {
    DiscriminantsFromEdges(s);
    DiscriminantsFromEdges(TransformSpline(cm, s));
    TransformedEdges(cm, s);
    EdgeDiscriminantsScale(cm, Sub2(s.k1, s.k0), Sub2(s.k2, s.k0), Sub2(s.k3, s.k0));
  }

  /** The edge form of the discriminants, for edges mapped by the linear part of cm. */
  lemma EdgeDiscriminantsScale(cm: CairoMatrix, w1: Vector2, w2: Vector2, w3: Vector2)
    ensures var D := Determinant(cm);
            var v1, v2, v3 := LinearPart(cm, w1), LinearPart(cm, w2), LinearPart(cm, w3);
            var a1, a2, a3 := Cross2(w3, w2), -Cross2(w1, w3), -Cross2(w1, w2);
            var b1, b2, b3 := Cross2(v3, v2), -Cross2(v1, v3), -Cross2(v1, v2);
            Discriminants(b1 - 2.0 * b2 + 3.0 * b3, -b2 + 3.0 * b3, 3.0 * b3)
              == Discriminants(D * (a1 - 2.0 * a2 + 3.0 * a3), D * (-a2 + 3.0 * a3), D * (3.0 * a3))
  {
    var v1, v2, v3 := LinearPart(cm, w1), LinearPart(cm, w2), LinearPart(cm, w3);
    CrossOfLinearPart(cm, w3, w2);
    CrossOfLinearPart(cm, w1, w3);
    CrossOfLinearPart(cm, w1, w2);
    ScaledCombination(Determinant(cm), Cross2(w3, w2), -Cross2(w1, w3), -Cross2(w1, w2),
                      Cross2(v3, v2), -Cross2(v1, v3), -Cross2(v1, v2));
  }

  /** The discriminants are linear in the three triple products. */
  lemma ScaledCombination(D: real, a1: real, a2: real, a3: real, b1: real, b2: real, b3: real)
    requires b1 == D * a1 && -b2 == D * -a2 && -b3 == D * -a3
    ensures b1 - 2.0 * b2 + 3.0 * b3 == D * (a1 - 2.0 * a2 + 3.0 * a3)
    ensures -b2 + 3.0 * b3 == D * (-a2 + 3.0 * a3)
    ensures 3.0 * b3 == D * (3.0 * a3)
  {
  }

  // ---------------------------------------------------------------------
  // Classification
  // ---------------------------------------------------------------------

  datatype CubicKind = Line | Quadratic | CuspAtInfinity | Serpentine | Loop

  /** 3 d2^2 - 4 d1 d3: its sign separates serpentines and cusps from loops. */
  function InflectionDiscriminant(d: Discriminants): real
  {
    3.0 * d.d2 * d.d2 - 4.0 * d.d1 * d.d3
  }

  /** The case analysis both the fill and the curve pass perform, in their order. */
  function Classify(d: Discriminants): CubicKind
  {
    if d.d1 == 0.0 && d.d2 == 0.0 && d.d3 == 0.0 then Line
    else if d.d1 == 0.0 && d.d2 == 0.0 then Quadratic
    else if d.d1 == 0.0 then CuspAtInfinity
    else if InflectionDiscriminant(d) >= 0.0 then Serpentine
    else Loop
  }

  /**
   * Scaling all three discriminants by a non-zero factor keeps the kind:
   * which of them vanish is unchanged, and the inflection discriminant is
   * multiplied by the positive square of the factor.
   */
  lemma ClassifyScaled(d: Discriminants, D: real)
    requires D != 0.0
    ensures Classify(Discriminants(D * d.d1, D * d.d2, D * d.d3)) == Classify(d)
  {
    NonZeroProduct(D, d.d1);
    NonZeroProduct(D, d.d2);
    NonZeroProduct(D, d.d3);
    InflectionDiscriminantScales(d, D);
    PositiveSquareKeepsSign(D, InflectionDiscriminant(d));
  }

  lemma NonZeroProduct(D: real, x: real)
    requires D != 0.0
    ensures D * x == 0.0 <==> x == 0.0
  {
  }

  lemma InflectionDiscriminantScales(d: Discriminants, D: real)
    ensures InflectionDiscriminant(Discriminants(D * d.d1, D * d.d2, D * d.d3)) == D * (D * InflectionDiscriminant(d))
  {
  }

  /** Multiplying twice by the same non-zero factor keeps the sign. */
  lemma PositiveSquareKeepsSign(D: real, x: real)
    requires D != 0.0
    ensures D * (D * x) >= 0.0 <==> x >= 0.0
  {
    if D > 0.0 {
      SignOfProduct(D, x);
      SignOfProduct(D, D * x);
    } else {
      SignOfProduct(-D, x);
      SignOfProduct(-D, (-D) * x);
      assert D * (D * x) == (-D) * ((-D) * x);
    }
  }

  lemma SignOfProduct(c: real, x: real)
    requires c > 0.0
    ensures c * x >= 0.0 <==> x >= 0.0
  {
    if x < 0.0 {
      PositiveProduct(c, -x);
      assert c * x == -(c * (-x));
    }
  }

  lemma PositiveProduct(a: real, b: real)
    requires a > 0.0 && b > 0.0
    ensures a * b > 0.0
  {
  }

  /**
   * An invertible cairo matrix does not change the kind of a cubic, so the
   * classification may be done before or after the user's transformation.
   */
  lemma KindAffineInvariant(cm: CairoMatrix, s: Spline)
    requires Determinant(cm) != 0.0
    ensures Classify(CubicDiscriminants(TransformSpline(cm, s))) == Classify(CubicDiscriminants(s))
  {
    DiscriminantsScale(cm, s);
    ClassifyScaled(CubicDiscriminants(s), Determinant(cm));
  }

  /** The knots all lie on one line through k0. */
  predicate Collinear(s: Spline)
  {
    var w1 := Sub2(s.k1, s.k0);
    var w2 := Sub2(s.k2, s.k0);
    var w3 := Sub2(s.k3, s.k0);
    Cross2(w1, w2) == 0.0 && Cross2(w1, w3) == 0.0 && Cross2(w2, w3) == 0.0
  }

  /** A cubic whose knots are collinear is classified as a line. */
  lemma CollinearIsLine(s: Spline)
    requires Collinear(s)
    ensures Classify(CubicDiscriminants(s)) == Line
  {
    DiscriminantsFromEdges(s);
    Cross2Antisymmetric(Sub2(s.k3, s.k0), Sub2(s.k2, s.k0));
  }

  /** The cubic that traces the same curve as the quadratic (q0, q1, q2). */
  function Elevate(q0: Vector2, q1: Vector2, q2: Vector2): Spline
  {
    Spline(q0,
           Vector2(q0.x + (2.0 / 3.0) * (q1.x - q0.x), q0.y + (2.0 / 3.0) * (q1.y - q0.y)),
           Vector2(q2.x + (2.0 / 3.0) * (q1.x - q2.x), q2.y + (2.0 / 3.0) * (q1.y - q2.y)),
           q2)
  }

  /** The edge crosses of an elevated quadratic, all multiples of one area. */
  lemma ElevatedEdgeCrosses(q0: Vector2, q1: Vector2, q2: Vector2)
    ensures var s := Elevate(q0, q1, q2);
            var c := Cross2(Sub2(q1, q0), Sub2(q2, q0));
            && Cross2(Sub2(s.k3, s.k0), Sub2(s.k2, s.k0)) == -(2.0 / 3.0) * c
            && Cross2(Sub2(s.k1, s.k0), Sub2(s.k3, s.k0)) == (2.0 / 3.0) * c
            && Cross2(Sub2(s.k1, s.k0), Sub2(s.k2, s.k0)) == (2.0 / 9.0) * c
  {
  }

  /**
   * A genuine quadratic, raised to a cubic, is classified as a quadratic:
   * d1 = d2 = 0 and d3 is a non-zero multiple of its area.
   */
  lemma ElevatedQuadraticIsQuadratic(q0: Vector2, q1: Vector2, q2: Vector2)
    requires Cross2(Sub2(q1, q0), Sub2(q2, q0)) != 0.0
    ensures var d := CubicDiscriminants(Elevate(q0, q1, q2));
            d.d1 == 0.0 && d.d2 == 0.0 && d.d3 == -(2.0 / 3.0) * Cross2(Sub2(q1, q0), Sub2(q2, q0))
    ensures Classify(CubicDiscriminants(Elevate(q0, q1, q2))) == Quadratic
  {
    DiscriminantsFromEdges(Elevate(q0, q1, q2));
    ElevatedEdgeCrosses(q0, q1, q2);
  }

  // ---------------------------------------------------------------------
  // Inflection parameters
  // ---------------------------------------------------------------------

  /**
   * The inflection parameters of a cubic that is neither a line nor a
   * quadratic: the single d3 / (3 d2) for a cusp at infinity, otherwise
   * (d2 -+ r) / (2 d1) with r the square root of the discriminant divided by
   * 3 (serpentine, cusp) or of its negation (loop). Unsorted.
   */
  function Inflections(d: Discriminants, sqrt: real -> real): (real, real)
    requires d.d1 != 0.0 || d.d2 != 0.0
  {
    if d.d1 == 0.0 then
      var t := d.d3 / (3.0 * d.d2);
      (t, t)
    else
      var disI := InflectionDiscriminant(d);
      var r := sqrt(if disI >= 0.0 then disI / 3.0 else -disI);
      ((d.d2 - r) / (2.0 * d.d1), (d.d2 + r) / (2.0 * d.d1))
  }

  /** The pair in ascending order. */
  function SortPair(p: (real, real)): (r: (real, real))
    ensures r.0 <= r.1
    ensures (r.0 == p.0 && r.1 == p.1) || (r.0 == p.1 && r.1 == p.0)
  {
    if p.0 > p.1 then (p.1, p.0) else p
  }

  /** The inflection polynomial 3 d1 t^2 - 3 d2 t + d3. */
  function InflectionPoly(d: Discriminants, t: real): real
  {
    3.0 * d.d1 * t * t - 3.0 * d.d2 * t + d.d3
  }

  /** The double-point polynomial d1^2 t^2 - d1 d2 t + d2^2 - d1 d3 of a loop. */
  function DoublePointPoly(d: Discriminants, t: real): real
  {
    d.d1 * d.d1 * t * t - d.d1 * d.d2 * t + d.d2 * d.d2 - d.d1 * d.d3
  }

  /** For a cusp at infinity the parameter is the root of the (linear) inflection polynomial. */
  lemma CuspParameterIsInflection(d: Discriminants, sqrt: real -> real)
    requires Classify(d) == CuspAtInfinity
    ensures Inflections(d, sqrt).0 == Inflections(d, sqrt).1
    ensures InflectionPoly(d, Inflections(d, sqrt).0) == 0.0
  {
    var t := d.d3 / (3.0 * d.d2);
    assert 3.0 * d.d2 * t == d.d3;
  }

  /** If q = sqrt(disc) and t = (b -+ q) / (2a), then a t^2 - b t + c = 0 where disc = b^2 - 4ac. */
  lemma QuadraticFormula(a: real, b: real, c: real, q: real, t: real)
    requires a != 0.0 && q * q == b * b - 4.0 * a * c
    requires t == (b - q) / (2.0 * a) || t == (b + q) / (2.0 * a)
    ensures a * t * t - b * t + c == 0.0
  {
    var u := 2.0 * a * t;
    assert u == b - q || u == b + q;
    assert (u - b) * (u - b) == q * q;
    assert u * u - 2.0 * b * u + 4.0 * a * c == 0.0;
    assert u * u == 4.0 * a * a * t * t;
    assert 4.0 * a * (a * t * t - b * t + c) == 0.0;
  }

  /**
   * For a serpentine (or cusp) both parameters are roots of the inflection
   * polynomial, given a square root that is exact at the value it is asked for.
   */
  lemma SerpentineParametersAreInflections(d: Discriminants, sqrt: real -> real)
    requires Classify(d) == Serpentine
    requires var x := InflectionDiscriminant(d) / 3.0; sqrt(x) * sqrt(x) == x
    ensures InflectionPoly(d, Inflections(d, sqrt).0) == 0.0
    ensures InflectionPoly(d, Inflections(d, sqrt).1) == 0.0
  {
    SerpentineRoot(d, sqrt(InflectionDiscriminant(d) / 3.0), Inflections(d, sqrt).0);
    SerpentineRoot(d, sqrt(InflectionDiscriminant(d) / 3.0), Inflections(d, sqrt).1);
  }

  lemma SerpentineRoot(d: Discriminants, q: real, t: real)
    requires d.d1 != 0.0 && q * q == InflectionDiscriminant(d) / 3.0
    requires t == (d.d2 - q) / (2.0 * d.d1) || t == (d.d2 + q) / (2.0 * d.d1)
    ensures InflectionPoly(d, t) == 0.0
  {
    assert q * q == d.d2 * d.d2 - 4.0 * d.d1 * (d.d3 / 3.0);
    QuadraticFormula(d.d1, d.d2, d.d3 / 3.0, q, t);
    assert InflectionPoly(d, t) == 3.0 * (d.d1 * t * t - d.d2 * t + d.d3 / 3.0);
  }

  /**
   * For a loop both parameters are roots of the double-point polynomial,
   * given a square root that is exact at the value it is asked for.
   */
  lemma LoopParametersAreDoublePoints(d: Discriminants, sqrt: real -> real)
    requires Classify(d) == Loop
    requires var x := -InflectionDiscriminant(d); sqrt(x) * sqrt(x) == x
    ensures DoublePointPoly(d, Inflections(d, sqrt).0) == 0.0
    ensures DoublePointPoly(d, Inflections(d, sqrt).1) == 0.0
  {
    var q := sqrt(-InflectionDiscriminant(d));
    var (t1, t2) := Inflections(d, sqrt);
    LoopRoot(d, q, t1);
    LoopRoot(d, q, t2);
  }

  lemma LoopRoot(d: Discriminants, q: real, t: real)
    requires d.d1 != 0.0 && q * q == -InflectionDiscriminant(d)
    requires t == (d.d2 - q) / (2.0 * d.d1) || t == (d.d2 + q) / (2.0 * d.d1)
    ensures DoublePointPoly(d, t) == 0.0
  {
    var c := (d.d2 * d.d2 - d.d1 * d.d3) / d.d1;
    assert d.d1 * c == d.d2 * d.d2 - d.d1 * d.d3;
    assert 4.0 * d.d1 * c == 4.0 * d.d2 * d.d2 - 4.0 * d.d1 * d.d3;
    assert q * q == d.d2 * d.d2 - 4.0 * d.d1 * c;
    QuadraticFormula(d.d1, d.d2, c, q, t);
    ScaledPoly(d, c, t);
  }

  lemma ScaledPoly(d: Discriminants, c: real, t: real)
    requires d.d1 * c == d.d2 * d.d2 - d.d1 * d.d3
    ensures DoublePointPoly(d, t) == d.d1 * (d.d1 * t * t - d.d2 * t + c)
  {
  }

  // ---------------------------------------------------------------------
  // Splitting at the inflections
  // ---------------------------------------------------------------------

  /** Consecutive pieces meet, the first starts at s.k0, the last ends at s.k3. */
  ghost predicate Chain(s: Spline, pieces: seq<Spline>)
  {
    && |pieces| >= 1
    && pieces[0].k0 == s.k0 && pieces[|pieces| - 1].k3 == s.k3
    && (forall j :: 0 <= j < |pieces| - 1 ==> pieces[j].k3 == pieces[j + 1].k0)
  }

  /**
   * The pieces a cubic is buffered as, for sorted parameters i1 <= i2: the
   * whole cubic unless a parameter lies strictly inside (0, 1); otherwise
   * split at the inner parameter(s), the second split taken on the right
   * half at the rescaled parameter (i2 - i1) / (1 - i1).
   */
  function SplitAtInflections(s: Spline, i1: real, i2: real): (pieces: seq<Spline>)
    requires i1 <= i2
    ensures Chain(s, pieces) && 1 <= |pieces| <= 3
    ensures |pieces| == 1 <==> !(0.0 < i1 < 1.0 || 0.0 < i2 < 1.0)
    ensures |pieces| == 1 ==> pieces == [s]
    ensures |pieces| == 3 <==> 0.0 < i1 < i2 < 1.0
  {
    if i1 >= 1.0 || i2 <= 0.0 || (i1 <= 0.0 && i2 >= 1.0) then [s]
    else if i1 <= 0.0 then
      SubdivideEnds(i2, s);
      SubdivideJoin(i2, s);
      var (left, right) := Subdivide(i2, s);
      [left, right]
    else
      SubdivideEnds(i1, s);
      SubdivideJoin(i1, s);
      var (left, right) := Subdivide(i1, s);
      if i2 == i1 || i2 >= 1.0 then [left, right]
      else
        var t := (i2 - i1) / (1.0 - i1);
        SubdivideEnds(t, right);
        SubdivideJoin(t, right);
        var (left2, right2) := Subdivide(t, right);
        [left, left2, right2]
  }

  /**
   * The parameters of the original cubic at which the pieces of
   * SplitAtInflections begin and end: 0, the inner inflections, 1.
   */
  function SplitParameters(i1: real, i2: real): seq<real>
    requires i1 <= i2
  {
    if i1 >= 1.0 || i2 <= 0.0 || (i1 <= 0.0 && i2 >= 1.0) then [0.0, 1.0]
    else if i1 <= 0.0 then [0.0, i2, 1.0]
    else if i2 == i1 || i2 >= 1.0 then [0.0, i1, 1.0]
    else [0.0, i1, i2, 1.0]
  }

  /**
   * Each piece traces its stretch of the original cubic: piece j at local
   * parameter u is the cubic at the point u of the way from b[j] to b[j+1],
   * where the b are the split parameters, increasing from 0 to 1. So the
   * second split, taken on the right half at the rescaled parameter,
   * lands exactly on i2.
   */
  lemma SplitTraces(s: Spline, i1: real, i2: real, u: real)
    requires i1 <= i2
    ensures var pieces := SplitAtInflections(s, i1, i2);
            var b := SplitParameters(i1, i2);
            && |b| == |pieces| + 1 && b[0] == 0.0 && b[|pieces|] == 1.0
            && (forall j :: 0 <= j < |pieces| ==> b[j] < b[j + 1])
            && (forall j :: 0 <= j < |pieces| ==> Eval(pieces[j], u) == Eval(s, MixS(b[j], b[j + 1], u)))
  {
    if i1 >= 1.0 || i2 <= 0.0 || (i1 <= 0.0 && i2 >= 1.0) {
      WholeSplit(s, i1, i2);
      assert MixS(0.0, 1.0, u) == u;
    } else if i1 <= 0.0 {
      SplitOnce(s, i1, i2, i2);
      HalvesTrace(s, i2, u);
    } else if i2 == i1 || i2 >= 1.0 {
      SplitOnce(s, i1, i2, i1);
      HalvesTrace(s, i1, u);
    } else {
      SplitTwice(s, i1, i2);
      ThreePiecesTrace(s, i1, i2, u);
    }
  }

  lemma WholeSplit(s: Spline, i1: real, i2: real)
    requires i1 <= i2 && (i1 >= 1.0 || i2 <= 0.0 || (i1 <= 0.0 && i2 >= 1.0))
    ensures SplitAtInflections(s, i1, i2) == [s] && SplitParameters(i1, i2) == [0.0, 1.0]
  {
  }

  lemma SplitOnce(s: Spline, i1: real, i2: real, t: real)
    requires i1 <= i2 && !(i1 >= 1.0 || i2 <= 0.0 || (i1 <= 0.0 && i2 >= 1.0))
    requires if i1 <= 0.0 then t == i2 else (i2 == i1 || i2 >= 1.0) && t == i1
    ensures 0.0 < t < 1.0
    ensures SplitAtInflections(s, i1, i2) == [Subdivide(t, s).0, Subdivide(t, s).1]
    ensures SplitParameters(i1, i2) == [0.0, t, 1.0]
  {
  }

  lemma SplitTwice(s: Spline, i1: real, i2: real)
    requires 0.0 < i1 < i2 < 1.0
    ensures var right := Subdivide(i1, s).1;
            var t := (i2 - i1) / (1.0 - i1);
            SplitAtInflections(s, i1, i2) == [Subdivide(i1, s).0, Subdivide(t, right).0, Subdivide(t, right).1]
    ensures SplitParameters(i1, i2) == [0.0, i1, i2, 1.0]
  {
  }

  /** The two halves of a split at t trace the stretches [0, t] and [t, 1]. */
  lemma HalvesTrace(s: Spline, t: real, u: real)
    ensures Eval(Subdivide(t, s).0, u) == Eval(s, MixS(0.0, t, u))
    ensures Eval(Subdivide(t, s).1, u) == Eval(s, MixS(t, 1.0, u))
  {
    SubdivideTraces(t, s, u);
    assert MixS(0.0, t, u) == t * u;
    assert MixS(t, 1.0, u) == t + (1.0 - t) * u;
  }

  /**
   * Both inflections inside the cubic: the halves of the right half, split
   * at (i2 - i1) / (1 - i1), trace [i1, i2] and [i2, 1].
   */
  lemma ThreePiecesTrace(s: Spline, i1: real, i2: real, u: real)
    requires 0.0 < i1 < i2 < 1.0
    ensures var right := Subdivide(i1, s).1;
            var t := (i2 - i1) / (1.0 - i1);
            && Eval(Subdivide(i1, s).0, u) == Eval(s, MixS(0.0, i1, u))
            && Eval(Subdivide(t, right).0, u) == Eval(s, MixS(i1, i2, u))
            && Eval(Subdivide(t, right).1, u) == Eval(s, MixS(i2, 1.0, u))
  {
    var t := (i2 - i1) / (1.0 - i1);
    var right := Subdivide(i1, s).1;
    var x, y := t * u, t + (1.0 - t) * u;
    HalvesTrace(s, i1, u);
    SubdivideTraces(t, right, u);
    SubdivideTraces(i1, s, x);
    SubdivideTraces(i1, s, y);
    RescaledSplit(i1, i2, u, t, x, y);
  }

  /** The second split's parameters, read back on the original cubic. */
  lemma RescaledSplit(i1: real, i2: real, u: real, t: real, x: real, y: real)
    requires 0.0 < i1 < i2 < 1.0 && t == (i2 - i1) / (1.0 - i1)
    requires x == t * u && y == t + (1.0 - t) * u
    ensures i1 + (1.0 - i1) * x == MixS(i1, i2, u)
    ensures i1 + (1.0 - i1) * y == MixS(i2, 1.0, u)
  {
    assert (1.0 - i1) * t == i2 - i1;
    assert (1.0 - i1) * (1.0 - t) == 1.0 - i2;
    assert (1.0 - i1) * (t * u) == ((1.0 - i1) * t) * u;
    assert (1.0 - i1) * (t + (1.0 - t) * u) == (1.0 - i1) * t + ((1.0 - i1) * (1.0 - t)) * u;
  }

  /**
   * What the fill buffers for a cubic: nothing for a line, the cubic itself
   * for a quadratic, otherwise its pieces between the sorted inflections.
   */
  function CurvePieces(s: Spline, sqrt: real -> real): (pieces: seq<Spline>)
    ensures Classify(CubicDiscriminants(s)) == Line <==> pieces == []
    ensures pieces != [] ==> Chain(s, pieces) && |pieces| <= 3
    ensures Classify(CubicDiscriminants(s)) == Quadratic ==> pieces == [s]
  {
    var d := CubicDiscriminants(s);
    match Classify(d)
    case Line => []
    case Quadratic => [s]
    case _ =>
      var (i1, i2) := SortPair(Inflections(d, sqrt));
      SplitAtInflections(s, i1, i2)
  }

  /** The ends of the line segments the fill adds for a cubic: one per piece, or k3 for a line. */
  function CurveEnds(s: Spline, sqrt: real -> real): (ends: seq<Vector2>)
    ensures var pieces := CurvePieces(s, sqrt);
            && |ends| == (if pieces == [] then 1 else |pieces|)
            && (pieces != [] ==> forall j :: 0 <= j < |pieces| ==> ends[j] == pieces[j].k3)
  {
    var pieces := CurvePieces(s, sqrt);
    if pieces == [] then [s.k3] else seq(|pieces|, j requires 0 <= j < |pieces| => pieces[j].k3)
  }

  /** Whatever the classification, the fill's last segment for a cubic ends at its last knot. */
  lemma CurveEndsAtLastKnot(s: Spline, sqrt: real -> real)
    ensures var ends := CurveEnds(s, sqrt); |ends| >= 1 && ends[|ends| - 1] == s.k3
  {
  }
}
