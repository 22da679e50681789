/** The projection builders `DS::Frustum` and `DS::Perspective`. `Frustum`
    starts from a default-constructed (identity) matrix and overwrites all 16
    entries; it stores the matrix of section 2.11.2 of the OpenGL 2.1
    specification with the first index as the column. */
module Projection {
  import opened Matrices
  import Vectors

  /** The perspective matrix of `glFrustum` as section 2.11.2 of the OpenGL 2.1
      specification writes it, with the first index as the row. */
  function GlFrustum(l: real, r: real, b: real, t: real, n: real, f: real): (g: Matrix4)
    requires r != l && t != b && f != n
    ensures l == -r && b == -t ==> g[0][2] == 0.0 && g[1][2] == 0.0
  {
    assert l == -r ==> r + l == 0.0;
    assert b == -t ==> t + b == 0.0;
    [[2.0 * n / (r - l), 0.0, (r + l) / (r - l), 0.0],
     [0.0, 2.0 * n / (t - b), (t + b) / (t - b), 0.0],
     [0.0, 0.0, -(f + n) / (f - n), -2.0 * f * n / (f - n)],
     [0.0, 0.0, -1.0, 0.0]]
  }

  /** The 16 assignments of `Frustum`, in source order, applied to the
      matrix `start` they start from. Every entry is written: the result is the
      transpose of the OpenGL matrix, with the six closed-form entries and
      the ten constant ones below. */
  function FrustumOver(start: Matrix4, xNeg: real, xPos: real, yNeg: real, yPos: real, zNear: real, zFar: real): (r: Matrix4)
    requires xPos != xNeg && yPos != yNeg && zFar != zNear
    ensures forall i, j :: InRange(i) && InRange(j) ==> r[i][j] == GlFrustum(xNeg, xPos, yNeg, yPos, zNear, zFar)[j][i]
    ensures r[0][0] == 2.0 * zNear / (xPos - xNeg) && r[1][1] == 2.0 * zNear / (yPos - yNeg)
    ensures r[2][0] == (xPos + xNeg) / (xPos - xNeg) && r[2][1] == (yPos + yNeg) / (yPos - yNeg)
    ensures r[2][2] == -(zFar + zNear) / (zFar - zNear) && r[3][2] == -2.0 * zFar * zNear / (zFar - zNear)
    ensures r[2][3] == -1.0 && r[3][3] == 0.0
    ensures r[0][1] == 0.0 && r[0][2] == 0.0 && r[0][3] == 0.0
    ensures r[1][0] == 0.0 && r[1][2] == 0.0 && r[1][3] == 0.0
    ensures r[3][0] == 0.0 && r[3][1] == 0.0
  {
    var m00 := Set(start, 0, 0, 2.0 * zNear / (xPos - xNeg));
    var m01 := Set(m00, 0, 1, 0.0);
    var m02 := Set(m01, 0, 2, 0.0);
    var m03 := Set(m02, 0, 3, 0.0);
    var m10 := Set(m03, 1, 0, 0.0);
    var m11 := Set(m10, 1, 1, 2.0 * zNear / (yPos - yNeg));
    var m12 := Set(m11, 1, 2, 0.0);
    var m13 := Set(m12, 1, 3, 0.0);
    var m20 := Set(m13, 2, 0, (xPos + xNeg) / (xPos - xNeg));
    var m21 := Set(m20, 2, 1, (yPos + yNeg) / (yPos - yNeg));
    var m22 := Set(m21, 2, 2, -(zFar + zNear) / (zFar - zNear));
    var m23 := Set(m22, 2, 3, -1.0);
    var m30 := Set(m23, 3, 0, 0.0);
    var m31 := Set(m30, 3, 1, 0.0);
    var m32 := Set(m31, 3, 2, -2.0 * zFar * zNear / (zFar - zNear));
    Set(m32, 3, 3, 0.0)
  }

  /** `Frustum`: the local matrix starts as the identity. */
  function Frustum(xNeg: real, xPos: real, yNeg: real, yPos: real, zNear: real, zFar: real): (r: Matrix4)
    requires xPos != xNeg && yPos != yNeg && zFar != zNear
    ensures forall i, j :: InRange(i) && InRange(j) ==> r[i][j] == GlFrustum(xNeg, xPos, yNeg, yPos, zNear, zFar)[j][i]
  {
    FrustumOver(Identity(), xNeg, xPos, yNeg, yPos, zNear, zFar)
  }

  /** All 16 entries are written, so the starting matrix makes no difference. */
  lemma FrustumIgnoresStart(start0: Matrix4, start1: Matrix4, xNeg: real, xPos: real, yNeg: real, yPos: real, zNear: real, zFar: real)
    requires xPos != xNeg && yPos != yNeg && zFar != zNear
    ensures FrustumOver(start0, xNeg, xPos, yNeg, yPos, zNear, zFar) == FrustumOver(start1, xNeg, xPos, yNeg, yPos, zNear, zFar)
  {
    Extensionality(FrustumOver(start0, xNeg, xPos, yNeg, yPos, zNear, zFar), FrustumOver(start1, xNeg, xPos, yNeg, yPos, zNear, zFar));
  }

  /** `Frustum` is the OpenGL matrix stored with the first index as the
      column: its transpose is exactly the matrix of the specification. */
  lemma FrustumIsGlTransposed(xNeg: real, xPos: real, yNeg: real, yPos: real, zNear: real, zFar: real)
    requires xPos != xNeg && yPos != yNeg && zFar != zNear
    ensures TransposeCorrected(Frustum(xNeg, xPos, yNeg, yPos, zNear, zFar)) == GlFrustum(xNeg, xPos, yNeg, yPos, zNear, zFar)
  {
    var f := Frustum(xNeg, xPos, yNeg, yPos, zNear, zFar);
    Extensionality(TransposeCorrected(f), GlFrustum(xNeg, xPos, yNeg, yPos, zNear, zFar));
  }

  /** The half-height `tanf(fovY * PI_OVER_360) * zNear` of the near plane. */
  function PerspectiveScale(fovY: real, zNear: real, tanf: real -> real, piOver360: real): (s: real)
    ensures s == 0.0 <==> zNear == 0.0 || tanf(fovY * piOver360) == 0.0
  {
    var t := tanf(fovY * piOver360);
    assert t != 0.0 && zNear != 0.0 ==> t * zNear != 0.0 by {
      if t != 0.0 && zNear != 0.0 {
        Vectors.ProductNonzero(t, zNear);
      }
    }
    t * zNear
  }

  /** The entries of a frustum symmetric about the axis. */
  lemma SymmetricRatios(n: real, w: real)
    requires w != 0.0
    ensures 2.0 * n / (w - -w) == n / w
    ensures (w + -w) / (w - -w) == 0.0
  {
    assert w - -w == 2.0 * w;
  }

  /** `Perspective`: a symmetric frustum with `right = aspect * scale` and
      `top = scale`. `tanf` and `PI_OVER_360` are parameters. The divisions
      of `Frustum` need a nonzero width, height and depth. */
  function Perspective(fovY: real, aspect: real, zNear: real, zFar: real, tanf: real -> real, piOver360: real): (r: Matrix4)
    requires PerspectiveScale(fovY, zNear, tanf, piOver360) != 0.0
    requires aspect * PerspectiveScale(fovY, zNear, tanf, piOver360) != 0.0
    requires zFar != zNear
    ensures r[2][0] == 0.0 && r[2][1] == 0.0
    ensures r[0][0] == zNear / (aspect * PerspectiveScale(fovY, zNear, tanf, piOver360))
    ensures r[1][1] == zNear / PerspectiveScale(fovY, zNear, tanf, piOver360)
    ensures r[2][2] == -(zFar + zNear) / (zFar - zNear) && r[3][2] == -2.0 * zFar * zNear / (zFar - zNear)
    ensures r[2][3] == -1.0 && r[3][3] == 0.0
  {
    var scale := PerspectiveScale(fovY, zNear, tanf, piOver360);
    var right := aspect * scale;
    var left := -right;
    var top := scale;
    var bottom := -top;
    SymmetricRatios(zNear, right);
    SymmetricRatios(zNear, top);
    Frustum(left, right, bottom, top, zNear, zFar)
  }
}
