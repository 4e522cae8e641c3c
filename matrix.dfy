/**
 * 4x4 float matrices of the GPU abstraction layer, indexed [row][column],
 * with their constructors, product and the in-place translate and scale.
 */
module GralMatrix {

  /** A homogeneous 4-vector; also one row of a matrix. */
  datatype Vec4 = Vec4(x: real, y: real, z: real, w: real)

  /** A 4x4 matrix as its four rows: m[i][j] is component j of row i. */
  datatype Mat4 = Mat4(r0: Vec4, r1: Vec4, r2: Vec4, r3: Vec4)

  function Component(v: Vec4, j: nat): real
    requires j < 4
  {
    if j == 0 then v.x else if j == 1 then v.y else if j == 2 then v.z else v.w
  }

  function Row(m: Mat4, i: nat): Vec4
    requires i < 4
  {
    if i == 0 then m.r0 else if i == 1 then m.r1 else if i == 2 then m.r2 else m.r3
  }

  /** m[i][j]. */
  function Entry(m: Mat4, i: nat, j: nat): real
    requires i < 4 && j < 4
  {
    Component(Row(m, i), j)
  }

  /** The 16 entries in memory order (the union's flat view). */
  function Flat(m: Mat4): (s: seq<real>)
    ensures |s| == 16 && forall i, j :: 0 <= i < 4 && 0 <= j < 4 ==> s[4 * i + j] == Entry(m, i, j)
  {
    [m.r0.x, m.r0.y, m.r0.z, m.r0.w, m.r1.x, m.r1.y, m.r1.z, m.r1.w,
     m.r2.x, m.r2.y, m.r2.z, m.r2.w, m.r3.x, m.r3.y, m.r3.z, m.r3.w]
  }

  /** Stores the 16 arguments row by row. */
  function Init(m00: real, m01: real, m02: real, m03: real,
                m10: real, m11: real, m12: real, m13: real,
                m20: real, m21: real, m22: real, m23: real,
                m30: real, m31: real, m32: real, m33: real): (r: Mat4)
    ensures Flat(r) == [m00, m01, m02, m03, m10, m11, m12, m13,
                        m20, m21, m22, m23, m30, m31, m32, m33]
  {
    Mat4(Vec4(m00, m01, m02, m03), Vec4(m10, m11, m12, m13), Vec4(m20, m21, m22, m23), Vec4(m30, m31, m32, m33))
  }

  function Identity(): (r: Mat4)
    ensures forall i, j :: 0 <= i < 4 && 0 <= j < 4 ==> Entry(r, i, j) == (if i == j then 1.0 else 0.0)
  {
    Init(1.0, 0.0, 0.0, 0.0,
         0.0, 1.0, 0.0, 0.0,
         0.0, 0.0, 1.0, 0.0,
         0.0, 0.0, 0.0, 1.0)
  }

  /** The identity with the translation in column 3 of rows 0 to 2. */
  function InitTranslate(x: real, y: real, z: real): (r: Mat4)
    ensures forall i, j :: 0 <= i < 4 && 0 <= j < 3 ==> Entry(r, i, j) == Entry(Identity(), i, j)
    ensures Entry(r, 0, 3) == x && Entry(r, 1, 3) == y && Entry(r, 2, 3) == z && Entry(r, 3, 3) == 1.0
  {
    Init(1.0, 0.0, 0.0, x,
         0.0, 1.0, 0.0, y,
         0.0, 0.0, 1.0, z,
         0.0, 0.0, 0.0, 1.0)
  }

  /** diag(x, y, z, 1). */
  function InitScale(x: real, y: real, z: real): (r: Mat4)
    ensures forall i, j :: 0 <= i < 4 && 0 <= j < 4 && i != j ==> Entry(r, i, j) == 0.0
    ensures Entry(r, 0, 0) == x && Entry(r, 1, 1) == y && Entry(r, 2, 2) == z && Entry(r, 3, 3) == 1.0
  {
    Init(x, 0.0, 0.0, 0.0,
         0.0, y, 0.0, 0.0,
         0.0, 0.0, z, 0.0,
         0.0, 0.0, 0.0, 1.0)
  }

  /** The four-term sum of products. */
  function Dot(r: Vec4, v: Vec4): real
  {
    r.x * v.x + r.y * v.y + r.z * v.z + r.w * v.w
  }

  /** Row r of a times the matrix b: entry j sums r[k] * b[k][j]. */
  function RowTimes(r: Vec4, b: Mat4): Vec4
  {
    Vec4(r.x * b.r0.x + r.y * b.r1.x + r.z * b.r2.x + r.w * b.r3.x,
         r.x * b.r0.y + r.y * b.r1.y + r.z * b.r2.y + r.w * b.r3.y,
         r.x * b.r0.z + r.y * b.r1.z + r.z * b.r2.z + r.w * b.r3.z,
         r.x * b.r0.w + r.y * b.r1.w + r.z * b.r2.w + r.w * b.r3.w)
  }

  /** The product a * b, built as a value (so the result may replace a or b). */
  function Multiply(a: Mat4, b: Mat4): Mat4
  {
    Mat4(RowTimes(a.r0, b), RowTimes(a.r1, b), RowTimes(a.r2, b), RowTimes(a.r3, b))
  }

  /** The matrix applied to a column vector. */
  function Apply(m: Mat4, v: Vec4): Vec4
  {
    Vec4(Dot(m.r0, v), Dot(m.r1, v), Dot(m.r2, v), Dot(m.r3, v))
  }

  /** Entry (i, j) of the product is the sum over k of a[i][k] * b[k][j]. */
  lemma MultiplyEntries(a: Mat4, b: Mat4, i: nat, j: nat)
    requires i < 4 && j < 4
    ensures Entry(Multiply(a, b), i, j)
         == Entry(a, i, 0) * Entry(b, 0, j) + Entry(a, i, 1) * Entry(b, 1, j)
          + Entry(a, i, 2) * Entry(b, 2, j) + Entry(a, i, 3) * Entry(b, 3, j)
  {
    assert Row(Multiply(a, b), i) == RowTimes(Row(a, i), b);
    RowTimesEntry(a, b, i, j);
  }

  lemma RowTimesEntry(a: Mat4, b: Mat4, i: nat, j: nat)
    requires i < 4 && j < 4
    ensures Component(RowTimes(Row(a, i), b), j)
         == Entry(a, i, 0) * Entry(b, 0, j) + Entry(a, i, 1) * Entry(b, 1, j)
          + Entry(a, i, 2) * Entry(b, 2, j) + Entry(a, i, 3) * Entry(b, 3, j)
  {
    var r := Row(a, i);
    assert Entry(a, i, 0) == r.x && Entry(a, i, 1) == r.y && Entry(a, i, 2) == r.z && Entry(a, i, 3) == r.w;
    if j == 0 {
      assert Entry(b, 0, j) == b.r0.x && Entry(b, 1, j) == b.r1.x && Entry(b, 2, j) == b.r2.x && Entry(b, 3, j) == b.r3.x;
    } else if j == 1 {
      assert Entry(b, 0, j) == b.r0.y && Entry(b, 1, j) == b.r1.y && Entry(b, 2, j) == b.r2.y && Entry(b, 3, j) == b.r3.y;
    } else if j == 2 {
      assert Entry(b, 0, j) == b.r0.z && Entry(b, 1, j) == b.r1.z && Entry(b, 2, j) == b.r2.z && Entry(b, 3, j) == b.r3.z;
    } else {
      assert Entry(b, 0, j) == b.r0.w && Entry(b, 1, j) == b.r1.w && Entry(b, 2, j) == b.r2.w && Entry(b, 3, j) == b.r3.w;
    }
  }

  /** The identity is neutral on both sides of the product. */
  lemma MultiplyIdentity(a: Mat4)
    ensures Multiply(Identity(), a) == a
    ensures Multiply(a, Identity()) == a
  {
  }

  /** The product applies b first, then a. */
  lemma MultiplyIsComposition(a: Mat4, b: Mat4, v: Vec4)
    ensures Apply(Multiply(a, b), v) == Apply(a, Apply(b, v))
  {
    RowTimesApplies(a.r0, b, v);
    RowTimesApplies(a.r1, b, v);
    RowTimesApplies(a.r2, b, v);
    RowTimesApplies(a.r3, b, v);
  }

  /** One row of the composition identity: both sides are the sum of the 16 products. */
  lemma RowTimesApplies(r: Vec4, b: Mat4, v: Vec4)
    ensures Dot(RowTimes(r, b), v) == Dot(r, Apply(b, v))
  {
    RowTimesExpanded(r, b, v);
    ApplyExpanded(r, b, v);
    RowDistributes(r.x, r.y, r.z, r.w, b.r0.x, b.r0.y, b.r0.z, b.r0.w, b.r1.x, b.r1.y, b.r1.z, b.r1.w,
                   b.r2.x, b.r2.y, b.r2.z, b.r2.w, b.r3.x, b.r3.y, b.r3.z, b.r3.w, v.x, v.y, v.z, v.w);
  }

  lemma RowTimesExpanded(r: Vec4, b: Mat4, v: Vec4)
    ensures Dot(RowTimes(r, b), v)
         == (r.x * b.r0.x + r.y * b.r1.x + r.z * b.r2.x + r.w * b.r3.x) * v.x
          + (r.x * b.r0.y + r.y * b.r1.y + r.z * b.r2.y + r.w * b.r3.y) * v.y
          + (r.x * b.r0.z + r.y * b.r1.z + r.z * b.r2.z + r.w * b.r3.z) * v.z
          + (r.x * b.r0.w + r.y * b.r1.w + r.z * b.r2.w + r.w * b.r3.w) * v.w
  {
  }

  lemma ApplyExpanded(r: Vec4, b: Mat4, v: Vec4)
    ensures Dot(r, Apply(b, v))
         == r.x * (b.r0.x * v.x + b.r0.y * v.y + b.r0.z * v.z + b.r0.w * v.w)
          + r.y * (b.r1.x * v.x + b.r1.y * v.y + b.r1.z * v.z + b.r1.w * v.w)
          + r.z * (b.r2.x * v.x + b.r2.y * v.y + b.r2.z * v.z + b.r2.w * v.w)
          + r.w * (b.r3.x * v.x + b.r3.y * v.y + b.r3.z * v.z + b.r3.w * v.w)
  {
  }

  /** The scalar identity behind one row. */
  lemma RowDistributes(a0: real, a1: real, a2: real, a3: real,
                       b00: real, b01: real, b02: real, b03: real, b10: real, b11: real, b12: real, b13: real,
                       b20: real, b21: real, b22: real, b23: real, b30: real, b31: real, b32: real, b33: real,
                       x: real, y: real, z: real, w: real)
    ensures (a0 * b00 + a1 * b10 + a2 * b20 + a3 * b30) * x + (a0 * b01 + a1 * b11 + a2 * b21 + a3 * b31) * y
          + (a0 * b02 + a1 * b12 + a2 * b22 + a3 * b32) * z + (a0 * b03 + a1 * b13 + a2 * b23 + a3 * b33) * w
         == a0 * (b00 * x + b01 * y + b02 * z + b03 * w) + a1 * (b10 * x + b11 * y + b12 * z + b13 * w)
          + a2 * (b20 * x + b21 * y + b22 * z + b23 * w) + a3 * (b30 * x + b31 * y + b32 * z + b33 * w)
  {
    DistributeRight(a0 * b00, a1 * b10, a2 * b20, a3 * b30, x);
    DistributeRight(a0 * b01, a1 * b11, a2 * b21, a3 * b31, y);
    DistributeRight(a0 * b02, a1 * b12, a2 * b22, a3 * b32, z);
    DistributeRight(a0 * b03, a1 * b13, a2 * b23, a3 * b33, w);
    DistributeLeft(a0, b00 * x, b01 * y, b02 * z, b03 * w);
    DistributeLeft(a1, b10 * x, b11 * y, b12 * z, b13 * w);
    DistributeLeft(a2, b20 * x, b21 * y, b22 * z, b23 * w);
    DistributeLeft(a3, b30 * x, b31 * y, b32 * z, b33 * w);
  }

  lemma DistributeRight(p: real, q: real, r: real, s: real, c: real)
    ensures (p + q + r + s) * c == p * c + q * c + r * c + s * c
  {
  }

  lemma DistributeLeft(c: real, p: real, q: real, r: real, s: real)
    ensures c * (p + q + r + s) == c * p + c * q + c * r + c * s
  {
  }

  /** A translation moves a point (w = 1) by (x, y, z) and leaves directions (w = 0) alone. */
  lemma TranslateMovesPoints(x: real, y: real, z: real, v: Vec4)
    ensures Apply(InitTranslate(x, y, z), v) == Vec4(v.x + x * v.w, v.y + y * v.w, v.z + z * v.w, v.w)
  {
  }

  /** Two translations compose to the translation by the sum. */
  lemma TranslationsCompose(x1: real, y1: real, z1: real, x2: real, y2: real, z2: real)
    ensures Multiply(InitTranslate(x1, y1, z1), InitTranslate(x2, y2, z2))
         == InitTranslate(x1 + x2, y1 + y2, z1 + z2)
  {
  }

  /** Two scalings compose to the scaling by the products. */
  lemma ScalingsCompose(x1: real, y1: real, z1: real, x2: real, y2: real, z2: real)
    ensures Multiply(InitScale(x1, y1, z1), InitScale(x2, y2, z2))
         == InitScale(x1 * x2, y1 * y2, z1 * z2)
  {
  }

  /** A matrix object updated in place, as through a `gral_matrix_t *`. */
  class Matrix {
    var m: Mat4

    constructor InitIdentity()
      ensures m == Identity()
    {
      m := Identity();
    }

    /** result := a * b; `a` and `b` may be this very matrix. */
    method MultiplyInto(a: Matrix, b: Matrix)
      modifies this
      ensures m == Multiply(old(a.m), old(b.m))
    {
      var r := Multiply(a.m, b.m);
      m := r;
    }

    /** M := M * T(x, y, z): the translation is applied before M. */
    method Translate(x: real, y: real, z: real)
      modifies this
      ensures m == Multiply(old(m), InitTranslate(x, y, z))
      ensures forall v: Vec4 {:trigger Apply(m, v)} :: Apply(m, v) == Apply(old(m), Apply(InitTranslate(x, y, z), v))
    {
      var tmp := new Matrix.InitIdentity();
      tmp.m := InitTranslate(x, y, z);
      MultiplyInto(this, tmp);
      forall v: Vec4 ensures Apply(m, v) == Apply(old(m), Apply(InitTranslate(x, y, z), v))
      {
        MultiplyIsComposition(old(m), InitTranslate(x, y, z), v);
      }
    }

    /** M := M * S(x, y, z): the scaling is applied before M. */
    method Scale(x: real, y: real, z: real)
      modifies this
      ensures m == Multiply(old(m), InitScale(x, y, z))
      ensures forall v: Vec4 {:trigger Apply(m, v)} :: Apply(m, v) == Apply(old(m), Apply(InitScale(x, y, z), v))
    {
      var tmp := new Matrix.InitIdentity();
      tmp.m := InitScale(x, y, z);
      MultiplyInto(this, tmp);
      forall v: Vec4 ensures Apply(m, v) == Apply(old(m), Apply(InitScale(x, y, z), v))
      {
        MultiplyIsComposition(old(m), InitScale(x, y, z), v);
      }
    }
  }
}
