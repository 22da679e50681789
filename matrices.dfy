/** 4x4 matrices (Math::Matrix4) and the free functions of Matrix4.h.
    A Matrix4 is its array `c`, indexed literally as `m[i][j]` for `c[i][j]`:
    the library itself does not use one layout throughout, so no row or
    column reading is imposed here. */
module Matrices {
  import Vectors

  type Matrix4 = c: seq<seq<real>> | |c| == 4 && forall i :: 0 <= i < 4 ==> |c[i]| == 4
    witness [[0.0, 0.0, 0.0, 0.0], [0.0, 0.0, 0.0, 0.0], [0.0, 0.0, 0.0, 0.0], [0.0, 0.0, 0.0, 0.0]]

  predicate InRange(i: int)
  {
    0 <= i < 4
  }

  /** Two matrices whose 16 entries agree are equal. */
  lemma Extensionality(a: Matrix4, b: Matrix4)
    requires forall i, j :: InRange(i) && InRange(j) ==> a[i][j] == b[i][j]
    ensures a == b
  {
    forall i | InRange(i)
      ensures a[i] == b[i]
    {
      assert forall j :: InRange(j) ==> a[i][j] == b[i][j];
    }
  }

  /** The result of the assignment `m.c[i][j] = v`. */
  function Set(m: Matrix4, i: int, j: int, v: real): (r: Matrix4)
    requires InRange(i) && InRange(j)
    ensures r[i][j] == v
    ensures forall a, b :: InRange(a) && InRange(b) && (a != i || b != j) ==> r[a][b] == m[a][b]
  {
    m[i := m[i][j := v]]
  }

  /** The void constructor: the identity matrix. */
  function Identity(): (r: Matrix4)
    ensures forall i, j :: InRange(i) && InRange(j) ==> r[i][j] == if i == j then 1.0 else 0.0
  {
    [[1.0, 0.0, 0.0, 0.0],
     [0.0, 1.0, 0.0, 0.0],
     [0.0, 0.0, 1.0, 0.0],
     [0.0, 0.0, 0.0, 1.0]]
  }

  /** The constructor from `const float m[4][4]`: a `memcpy` of all 16 entries. */
  method FromArray(a: array2<real>) returns (m: Matrix4)
    requires a.Length0 == 4 && a.Length1 == 4
    ensures forall i, j :: InRange(i) && InRange(j) ==> m[i][j] == a[i, j]
  {
    m := seq(4, i requires 0 <= i < 4 reads a => seq(4, j requires 0 <= j < 4 reads a => a[i, j]));
  }

  /** The 16-argument constructor as it is written: `c[3][2]` receives `t23`
      and `t32` is never read. */
  function Of16(t00: real, t01: real, t02: real, t03: real,
                t10: real, t11: real, t12: real, t13: real,
                t20: real, t21: real, t22: real, t23: real,
                t30: real, t31: real, t32: real, t33: real): (r: Matrix4)
    ensures r[3][2] == t23
    ensures r == Set(Of16Corrected(t00, t01, t02, t03, t10, t11, t12, t13,
                                   t20, t21, t22, t23, t30, t31, t32, t33), 3, 2, t23)
  {
    var r := [[t00, t01, t02, t03],
              [t10, t11, t12, t13],
              [t20, t21, t22, t23],
              [t30, t31, t23, t33]];
    Extensionality(r, Set(Of16Corrected(t00, t01, t02, t03, t10, t11, t12, t13,
                                        t20, t21, t22, t23, t30, t31, t32, t33), 3, 2, t23));
    r
  }

  /** The 16-argument constructor as evidently intended: `c[i][j] = tij`. */
  function Of16Corrected(t00: real, t01: real, t02: real, t03: real,
                         t10: real, t11: real, t12: real, t13: real,
                         t20: real, t21: real, t22: real, t23: real,
                         t30: real, t31: real, t32: real, t33: real): (r: Matrix4)
    ensures r[0][0] == t00 && r[0][1] == t01 && r[0][2] == t02 && r[0][3] == t03
    ensures r[1][0] == t10 && r[1][1] == t11 && r[1][2] == t12 && r[1][3] == t13
    ensures r[2][0] == t20 && r[2][1] == t21 && r[2][2] == t22 && r[2][3] == t23
    ensures r[3][0] == t30 && r[3][1] == t31 && r[3][2] == t32 && r[3][3] == t33
  {
    [[t00, t01, t02, t03],
     [t10, t11, t12, t13],
     [t20, t21, t22, t23],
     [t30, t31, t32, t33]]
  }

  /** The constructor as written never reads `t32`. */
  lemma Of16IgnoresT32(t00: real, t01: real, t02: real, t03: real,
                       t10: real, t11: real, t12: real, t13: real,
                       t20: real, t21: real, t22: real, t23: real,
                       t30: real, t31: real, t32: real, t33: real, u: real)
    ensures Of16(t00, t01, t02, t03, t10, t11, t12, t13, t20, t21, t22, t23, t30, t31, t32, t33)
         == Of16(t00, t01, t02, t03, t10, t11, t12, t13, t20, t21, t22, t23, t30, t31, u, t33)
  {
  }

  /** The written and the intended constructor agree exactly when `t23 == t32`. */
  lemma Of16AgreesIff(t00: real, t01: real, t02: real, t03: real,
                      t10: real, t11: real, t12: real, t13: real,
                      t20: real, t21: real, t22: real, t23: real,
                      t30: real, t31: real, t32: real, t33: real)
    ensures Of16(t00, t01, t02, t03, t10, t11, t12, t13, t20, t21, t22, t23, t30, t31, t32, t33)
         == Of16Corrected(t00, t01, t02, t03, t10, t11, t12, t13, t20, t21, t22, t23, t30, t31, t32, t33)
        <==> t23 == t32
  {
    var w := Of16(t00, t01, t02, t03, t10, t11, t12, t13, t20, t21, t22, t23, t30, t31, t32, t33);
    var c := Of16Corrected(t00, t01, t02, t03, t10, t11, t12, t13, t20, t21, t22, t23, t30, t31, t32, t33);
    if w == c {
      assert w[3][2] == c[3][2];
    }
  }

  /** `Compare` as it is written: the loops exit early on the first differing
      entry, and the fall-through also answers `false`. */
  method Compare(self: Matrix4, m: Matrix4) returns (r: bool)
    ensures !r
  {
    for i := 0 to 4 {
      for j := 0 to 4 {
        if m[i][j] != self[i][j] {
          return false;
        }
      }
    }
    return false;
  }

  /** `Compare` as evidently intended: `true` exactly when all 16 entries agree. */
  method CompareCorrected(self: Matrix4, m: Matrix4) returns (r: bool)
    ensures r <==> self == m
  {
    for i := 0 to 4
      invariant forall a, b :: 0 <= a < i && InRange(b) ==> m[a][b] == self[a][b]
    {
      for j := 0 to 4
        invariant forall a, b :: 0 <= a < i && InRange(b) ==> m[a][b] == self[a][b]
        invariant forall b :: 0 <= b < j ==> m[i][b] == self[i][b]
      {
        if m[i][j] != self[i][j] {
          return false;
        }
      }
    }
    Extensionality(self, m);
    return true;
  }

  /** `operator==`, which answers what `Compare` answers. */
  method Equal(self: Matrix4, m: Matrix4) returns (r: bool)
    ensures !r
  {
    r := Compare(self, m);
  }

  /** `operator!=`, the negation of `Compare`. */
  method NotEqual(self: Matrix4, m: Matrix4) returns (r: bool)
    ensures r
  {
    var same := Compare(self, m);
    r := !same;
  }

  /** `GetTranspose`, through the 16-argument constructor as written: every
      entry is transposed except (3,2), which keeps `m[3][2]`. */
  function Transpose(m: Matrix4): (r: Matrix4)
    ensures forall i, j :: InRange(i) && InRange(j) && (i, j) != (3, 2) ==> r[i][j] == m[j][i]
    ensures r[3][2] == m[3][2]
  {
    Of16(m[0][0], m[1][0], m[2][0], m[3][0],
         m[0][1], m[1][1], m[2][1], m[3][1],
         m[0][2], m[1][2], m[2][2], m[3][2],
         m[0][3], m[1][3], m[2][3], m[3][3])
  }

  /** `GetTranspose` through the intended constructor. */
  function TransposeCorrected(m: Matrix4): (r: Matrix4)
    ensures forall i, j :: InRange(i) && InRange(j) ==> r[i][j] == m[j][i]
  {
    Of16Corrected(m[0][0], m[1][0], m[2][0], m[3][0],
                  m[0][1], m[1][1], m[2][1], m[3][1],
                  m[0][2], m[1][2], m[2][2], m[3][2],
                  m[0][3], m[1][3], m[2][3], m[3][3])
  }

  lemma TransposeCorrectedInvolution(m: Matrix4)
    ensures TransposeCorrected(TransposeCorrected(m)) == m
  {
    Extensionality(TransposeCorrected(TransposeCorrected(m)), m);
  }

  /** The entry `m[2][3]` never reaches the transpose. */
  lemma TransposeIgnores23(m: Matrix4, v: real)
    ensures Transpose(Set(m, 2, 3, v)) == Transpose(m)
  {
    Extensionality(Transpose(Set(m, 2, 3, v)), Transpose(m));
  }

  /** Transposing twice restores the matrix exactly when it is symmetric at (2,3)/(3,2). */
  lemma TransposeTwiceIff(m: Matrix4)
    ensures Transpose(Transpose(m)) == m <==> m[2][3] == m[3][2]
  {
    var t := Transpose(Transpose(m));
    if m[2][3] == m[3][2] {
      Extensionality(t, m);
    } else {
      assert t[2][3] == m[3][2];
    }
  }

  /** Entry (i,j) of the matrix product: the sum over k in 0..3 of `m1[i][k] * m2[k][j]`. */
  function ProductEntry(m1: Matrix4, m2: Matrix4, i: int, j: int): (r: real)
    requires InRange(i) && InRange(j)
    ensures m1[i] == [0.0, 0.0, 0.0, 0.0] ==> r == 0.0
    ensures m2[0][j] == 0.0 && m2[1][j] == 0.0 && m2[2][j] == 0.0 && m2[3][j] == 0.0 ==> r == 0.0
  {
    m1[i][0] * m2[0][j] + m1[i][1] * m2[1][j] + m1[i][2] * m2[2][j] + m1[i][3] * m2[3][j]
  }

  /** The matrix product, entry by entry. */
  function Product(m1: Matrix4, m2: Matrix4): (r: Matrix4)
    ensures forall i, j :: InRange(i) && InRange(j) ==> r[i][j] == ProductEntry(m1, m2, i, j)
  {
    seq(4, i requires 0 <= i < 4 => seq(4, j requires 0 <= j < 4 => ProductEntry(m1, m2, i, j)))
  }

  /** Matrix-matrix `Multiply`: starts from the identity and overwrites every entry. */
  method Multiply(m1: Matrix4, m2: Matrix4) returns (r: Matrix4)
    ensures r == Product(m1, m2)
  {
    r := Identity();
    for i := 0 to 4
      invariant forall a, b :: 0 <= a < i && InRange(b) ==> r[a][b] == Product(m1, m2)[a][b]
    {
      for j := 0 to 4
        invariant forall a, b :: 0 <= a < i && InRange(b) ==> r[a][b] == Product(m1, m2)[a][b]
        invariant forall b :: 0 <= b < j ==> r[i][b] == Product(m1, m2)[i][b]
      {
        r := Set(r, i, j, m1[i][0] * m2[0][j] +
                          m1[i][1] * m2[1][j] +
                          m1[i][2] * m2[2][j] +
                          m1[i][3] * m2[3][j]);
      }
    }
    Extensionality(r, Product(m1, m2));
  }

  lemma ProductIdentityLeft(m: Matrix4)
    ensures Product(Identity(), m) == m
  {
    var p := Product(Identity(), m);
    forall i, j | InRange(i) && InRange(j)
      ensures p[i][j] == m[i][j]
    {
      assert p[i][j] == ProductEntry(Identity(), m, i, j);
    }
    Extensionality(p, m);
  }

  lemma ProductIdentityRight(m: Matrix4)
    ensures Product(m, Identity()) == m
  {
    var p := Product(m, Identity());
    forall i, j | InRange(i) && InRange(j)
      ensures p[i][j] == m[i][j]
    {
      assert p[i][j] == ProductEntry(m, Identity(), i, j);
    }
    Extensionality(p, m);
  }

  /** Matrix-vector `Multiply` as a function: component i is
      `m[i][0]*v.x + m[i][1]*v.y + m[i][2]*v.z`. */
  function Transform(m: Matrix4, v: Vectors.Vector3): (r: Vectors.Vector3)
    ensures m == Identity() ==> r == v
    ensures v == Vectors.Zero ==> r == Vectors.Zero
  {
    Vectors.Vector3(m[0][0] * v.x + m[0][1] * v.y + m[0][2] * v.z,
                    m[1][0] * v.x + m[1][1] * v.y + m[1][2] * v.z,
                    m[2][0] * v.x + m[2][1] * v.y + m[2][2] * v.z)
  }

  /** Matrix-vector `Multiply`: a default-constructed (uninitialised) Vector3
      whose three components are written through `operator[]`. */
  method MultiplyVector(m: Matrix4, v: Vectors.Vector3) returns (result: Vectors.Vector3)
    ensures result == Transform(m, v)
    ensures forall i :: 0 <= i < 3 ==>
      Vectors.Index(result, i) == m[i][0] * v.x + m[i][1] * v.y + m[i][2] * v.z
  {
    var r := new Vectors.Vector3Var.Void();
    for i := 0 to 3
      invariant forall a :: 0 <= a < i ==>
        Vectors.Index(r.Value(), a) == m[a][0] * v.x + m[a][1] * v.y + m[a][2] * v.z
    {
      r.SetAt(i, m[i][0] * v.x +
                 m[i][1] * v.y +
                 m[i][2] * v.z);
    }
    result := r.Value();
    Vectors.ComponentsDetermine(result, Transform(m, v));
  }

  /** The matrix-vector product reads only the upper-left 3x3 block. */
  lemma TransformReadsUpperLeft(m: Matrix4, n: Matrix4, v: Vectors.Vector3)
    requires forall i, j :: 0 <= i < 3 && 0 <= j < 3 ==> m[i][j] == n[i][j]
    ensures Transform(m, v) == Transform(n, v)
  {
    assert m[0][0] == n[0][0] && m[0][1] == n[0][1] && m[0][2] == n[0][2];
    assert m[1][0] == n[1][0] && m[1][1] == n[1][1] && m[1][2] == n[1][2];
    assert m[2][0] == n[2][0] && m[2][1] == n[2][1] && m[2][2] == n[2][2];
  }

  lemma TransformIdentity(v: Vectors.Vector3)
    ensures Transform(Identity(), v) == v
  {
  }

  /** `Scale`: the identity with `s.x`, `s.y`, `s.z` on the first three diagonal entries. */
  function Scale(s: Vectors.Vector3): (r: Matrix4)
    ensures r[0][0] == s.x && r[1][1] == s.y && r[2][2] == s.z
    ensures forall i, j :: InRange(i) && InRange(j) && !(i == j && i < 3) ==> r[i][j] == Identity()[i][j]
  {
    var id := Identity();
    var m00 := Set(id, 0, 0, s.x);
    var m11 := Set(m00, 1, 1, s.y);
    Set(m11, 2, 2, s.z)
  }

  /** `Translate`: the identity with `t` in entries (0,3), (1,3) and (2,3). */
  function Translate(t: Vectors.Vector3): (r: Matrix4)
    ensures r[0][3] == t.x && r[1][3] == t.y && r[2][3] == t.z
    ensures forall i, j :: InRange(i) && InRange(j) && !(j == 3 && i < 3) ==> r[i][j] == Identity()[i][j]
  {
    var id := Identity();
    var m03 := Set(id, 0, 3, t.x);
    var m13 := Set(m03, 1, 3, t.y);
    Set(m13, 2, 3, t.z)
  }

  /** `Shear`: the identity with the six off-diagonal entries of the upper-left
      3x3 block taken from `x`, `y` and `z`. */
  function Shear(x: Vectors.Vector3, y: Vectors.Vector3, z: Vectors.Vector3): (r: Matrix4)
    ensures r[1][0] == x.y && r[2][0] == x.z
    ensures r[0][1] == y.x && r[2][1] == y.z
    ensures r[0][2] == z.x && r[1][2] == z.y
    ensures forall i, j :: InRange(i) && InRange(j) && (i == j || i == 3 || j == 3) ==> r[i][j] == Identity()[i][j]
  {
    var id := Identity();
    var m10 := Set(id, 1, 0, x.y);
    var m20 := Set(m10, 2, 0, x.z);
    var m01 := Set(m20, 0, 1, y.x);
    var m21 := Set(m01, 2, 1, y.z);
    var m02 := Set(m21, 0, 2, z.x);
    Set(m02, 1, 2, z.y)
  }

  /** `Shear` never reads `x.x`, `y.y` or `z.z`. */
  lemma ShearIgnoresOwnAxes(x: Vectors.Vector3, y: Vectors.Vector3, z: Vectors.Vector3, a: real, b: real, c: real)
    ensures Shear(x, y, z) == Shear(x.(x := a), y.(y := b), z.(z := c))
  {
  }

  /** Translation is invisible to the matrix-vector product. */
  lemma TransformTranslate(t: Vectors.Vector3, v: Vectors.Vector3)
    ensures Transform(Translate(t), v) == v
  {
    TransformReadsUpperLeft(Translate(t), Identity(), v);
    TransformIdentity(v);
  }

  /** The scale matrix scales componentwise. */
  lemma TransformScale(s: Vectors.Vector3, v: Vectors.Vector3)
    ensures Transform(Scale(s), v) == Vectors.Vector3(s.x * v.x, s.y * v.y, s.z * v.z)
  {
  }

  /** `Euler`, with `cosf` and `sinf` as whatever functions the caller supplies.
      The cosines and sines are taken of the angles themselves. The source
      also computes `radX`, `radY` and `radZ` as `angle * PI_OVER_180` and
      never reads them, so they are not part of this model. */
  function Euler(angleX: real, angleY: real, angleZ: real,
                 cosf: real -> real, sinf: real -> real): (r: Matrix4)
    ensures forall k :: InRange(k) ==> r[3][k] == Identity()[3][k] && r[k][3] == Identity()[k][3]
  {
    var a := cosf(angleX);
    var b := sinf(angleX);
    var c := cosf(angleY);
    var d := sinf(angleY);
    var e := cosf(angleZ);
    var f := sinf(angleZ);
    var ad := a * d;
    var bd := b * d;
    var id := Identity();
    var m00 := Set(id, 0, 0, c * e);
    var m01 := Set(m00, 0, 1, -c * f);
    var m02 := Set(m01, 0, 2, d);
    var m10 := Set(m02, 1, 0, bd * e + a * f);
    var m11 := Set(m10, 1, 1, -bd * f + a * e);
    var m12 := Set(m11, 1, 2, -b * c);
    var m20 := Set(m12, 2, 0, -ad * e + b * f);
    var m21 := Set(m20, 2, 1, ad * f + b * e);
    var m22 := Set(m21, 2, 2, a * c);
    var m32 := Set(m22, 3, 2, 0.0);
    var m31 := Set(m32, 3, 1, 0.0);
    var m30 := Set(m31, 3, 0, 0.0);
    var m23 := Set(m30, 2, 3, 0.0);
    var m13 := Set(m23, 1, 3, 0.0);
    var m03 := Set(m13, 0, 3, 0.0);
    Set(m03, 3, 3, 1.0)
  }
}
