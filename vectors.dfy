/** Three-component direction vectors (Math::Vector3).
    Every `float` of the library is an exact `real` here. */
module Vectors {

  /** A Vector3 as a value: what the const members and the free functions see. */
  datatype Vector3 = Vector3(x: real, y: real, z: real)

  const Zero: Vector3 := Vector3(0.0, 0.0, 0.0)

  function Abs(r: real): (a: real)
    ensures a >= 0.0 && (a == r || a == -r)
  {
    if r < 0.0 then -r else r
  }

  /** The const `operator[]`: component `i` of `v`, for `0 <= i <= 2`. */
  function Index(v: Vector3, i: int): (r: real)
    requires 0 <= i <= 2
    ensures i == 0 ==> r == v.x
    ensures i == 1 ==> r == v.y
    ensures i == 2 ==> r == v.z
  {
    if i == 0 then v.x else if i == 1 then v.y else v.z
  }

  /** The value after writing `a` through the mutable `operator[]` at `i`. */
  function With(v: Vector3, i: int, a: real): (r: Vector3)
    requires 0 <= i <= 2
    ensures Index(r, i) == a
    ensures forall j :: 0 <= j <= 2 && j != i ==> Index(r, j) == Index(v, j)
  {
    if i == 0 then v.(x := a) else if i == 1 then v.(y := a) else v.(z := a)
  }

  /** Two vectors with equal components are equal. */
  lemma ComponentsDetermine(a: Vector3, b: Vector3)
    requires forall i :: 0 <= i <= 2 ==> Index(a, i) == Index(b, i)
    ensures a == b
  {
    assert a.x == Index(a, 0) == Index(b, 0) == b.x;
    assert a.y == Index(a, 1) == Index(b, 1) == b.y;
    assert a.z == Index(a, 2) == Index(b, 2) == b.z;
  }

  lemma SquareNonnegative(r: real)
    ensures r * r >= 0.0
  {
    if r < 0.0 {
      var q := -r;
      assert q * q > 0.0;
      assert r * r == q * q;
    }
  }

  function LengthSquared(v: Vector3): (r: real)
    ensures r >= 0.0
    ensures v == Zero ==> r == 0.0
  {
    var x2 := v.x * v.x;
    var y2 := v.y * v.y;
    var z2 := v.z * v.z;
    SquareNonnegative(v.x);
    SquareNonnegative(v.y);
    SquareNonnegative(v.z);
    x2 + y2 + z2
  }

  /** Binary `operator+`. */
  function Add(a: Vector3, b: Vector3): (r: Vector3)
    ensures forall i :: 0 <= i <= 2 ==> Index(r, i) == Index(a, i) + Index(b, i)
  {
    Vector3(a.x + b.x, a.y + b.y, a.z + b.z)
  }

  /** Binary `operator-`. */
  function Sub(a: Vector3, b: Vector3): (r: Vector3)
    ensures forall i :: 0 <= i <= 2 ==> Index(r, i) == Index(a, i) - Index(b, i)
  {
    Vector3(a.x - b.x, a.y - b.y, a.z - b.z)
  }

  /** `operator*` by a scalar on the right. */
  function Mul(v: Vector3, s: real): (r: Vector3)
    ensures forall i :: 0 <= i <= 2 ==> Index(r, i) == s * Index(v, i)
  {
    Vector3(s * v.x, s * v.y, s * v.z)
  }

  /** `operator/`: the source asserts `s != 0` and multiplies by `1/s`;
      scaling the quotient by `s` gives the vector back. */
  function Div(v: Vector3, s: real): (r: Vector3)
    requires s != 0.0
    ensures Mul(r, s) == v
  {
    var inv := 1.0 / s;
    Vector3(inv * v.x, inv * v.y, inv * v.z)
  }

  /** Unary `operator-`. */
  function Neg(v: Vector3): (r: Vector3)
    ensures Add(v, r) == Zero
    ensures r == Mul(v, -1.0)
  {
    Vector3(-v.x, -v.y, -v.z)
  }

  /** The dot product; it is symmetric, and the dot product of a vector
      with itself is its squared length. */
  function Dot(a: Vector3, b: Vector3): (r: real)
    ensures r == b.x * a.x + b.y * a.y + b.z * a.z
    ensures a == b ==> r == LengthSquared(a)
  {
    a.x * b.x + a.y * b.y + a.z * b.z
  }

  function AbsDot(a: Vector3, b: Vector3): (r: real)
    ensures r >= 0.0
    ensures r == Dot(a, b) || r == -Dot(a, b)
  {
    Abs(Dot(a, b))
  }

  /** The cross product, which is orthogonal to both of its arguments. */
  function Cross(a: Vector3, b: Vector3): (r: Vector3)
    ensures Dot(r, a) == 0.0 && Dot(r, b) == 0.0
  {
    var c := Vector3(a.y * b.z - a.z * b.y,
                     a.z * b.x - a.x * b.z,
                     a.x * b.y - a.y * b.x);
    calc {
      Dot(c, a);
      (a.y * b.z - a.z * b.y) * a.x + (a.z * b.x - a.x * b.z) * a.y + (a.x * b.y - a.y * b.x) * a.z;
      a.x * a.y * b.z - a.x * a.z * b.y + a.y * a.z * b.x - a.x * a.y * b.z + a.x * a.z * b.y - a.y * a.z * b.x;
      0.0;
    }
    calc {
      Dot(c, b);
      (a.y * b.z - a.z * b.y) * b.x + (a.z * b.x - a.x * b.z) * b.y + (a.x * b.y - a.y * b.x) * b.z;
      a.y * b.x * b.z - a.z * b.x * b.y + a.z * b.x * b.y - a.x * b.y * b.z + a.x * b.y * b.z - a.y * b.x * b.z;
      0.0;
    }
    c
  }

  lemma AddSubCancel(a: Vector3, b: Vector3)
    ensures Sub(Add(a, b), b) == a
  {
  }

  lemma AddNegIsZero(v: Vector3)
    ensures Add(v, Neg(v)) == Zero
  {
  }

  lemma DotSymmetric(a: Vector3, b: Vector3)
    ensures Dot(a, b) == Dot(b, a)
  {
  }

  lemma DotSelfIsLengthSquared(v: Vector3)
    ensures Dot(v, v) == LengthSquared(v)
  {
  }

  lemma CrossAntiCommutative(a: Vector3, b: Vector3)
    ensures Cross(a, b) == Neg(Cross(b, a))
  {
  }

  lemma CrossSelfIsZero(v: Vector3)
    ensures Cross(v, v) == Zero
  {
  }

  /** The radicand whose square root `CoordinateSystem` divides by: zero
      exactly for the zero vector. */
  function CoordinateSystemRadicand(v1: Vector3): (r: real)
    ensures r >= 0.0
    ensures v1 == Zero ==> r == 0.0
    ensures r == 0.0 ==> v1 == Zero
  {
    SumOfSquaresZero(v1.x, v1.z);
    SumOfSquaresZero(v1.y, v1.z);
    if Abs(v1.x) > Abs(v1.y) then v1.x * v1.x + v1.z * v1.z else v1.y * v1.y + v1.z * v1.z
  }

  /** A sum of two squares is nonnegative and vanishes only when both do. */
  lemma SumOfSquaresZero(a: real, b: real)
    ensures a * a + b * b >= 0.0
    ensures a * a + b * b == 0.0 ==> a == 0.0 && b == 0.0
  {
    SquareNonnegative(a);
    SquareNonnegative(b);
    if a * a + b * b == 0.0 {
      assert a * a == 0.0 && b * b == 0.0;
      SquareZero(a);
      SquareZero(b);
    }
  }

  lemma SquareZero(r: real)
    ensures r * r == 0.0 ==> r == 0.0
  {
    if r != 0.0 {
      assert (r * r) / r == r;
    }
  }

  lemma ProductNonzero(a: real, b: real)
    requires a != 0.0 && b != 0.0
    ensures a * b != 0.0
  {
    assert (a * b) / b == a;
  }

  /** The two candidates for the second axis, `v` turned a quarter in the
      x-z or the y-z plane and scaled by `s`, are orthogonal to `v`. */
  lemma QuarterTurnsOrthogonal(v: Vector3, s: real)
    ensures Dot(Vector3(-v.z * s, 0.0, v.x * s), v) == 0.0
    ensures Dot(Vector3(0.0, v.z * s, -v.y * s), v) == 0.0
  {
    assert (-v.z * s) * v.x + (v.x * s) * v.z == 0.0;
    assert (v.z * s) * v.y + (-v.y * s) * v.z == 0.0;
  }

  lemma ReciprocalNonzero(x: real)
    requires x != 0.0
    ensures 1.0 / x != 0.0
  {
    assert (1.0 / x) * x == 1.0;
  }

  /** Both candidates for the second axis are nonzero for a nonzero `v`
      and a nonzero scale, in the branch that picks them. */
  lemma QuarterTurnsNonzero(v: Vector3, s: real)
    requires v != Zero && s != 0.0
    ensures Abs(v.x) > Abs(v.y) ==> Vector3(-v.z * s, 0.0, v.x * s) != Zero
    ensures !(Abs(v.x) > Abs(v.y)) ==> Vector3(0.0, v.z * s, -v.y * s) != Zero
  {
    if Abs(v.x) > Abs(v.y) {
      ProductNonzero(v.x, s);
    } else if v.z != 0.0 {
      ProductNonzero(v.z, s);
    } else {
      ProductNonzero(-v.y, s);
    }
  }

  /** The second axis `CoordinateSystem` stores in `*v2`: `v1` turned a
      quarter in the x-z plane when `|x| > |y|` and in the y-z plane
      otherwise, scaled by `invLen`. */
  function SecondAxis(v1: Vector3, invLen: real): Vector3
  {
    if Abs(v1.x) > Abs(v1.y) then Vector3(-v1.z * invLen, 0.0, v1.x * invLen)
    else Vector3(0.0, v1.z * invLen, -v1.y * invLen)
  }

  /** For a nonzero scale the second axis is orthogonal to `v1`, and it is
      nonzero whenever `v1` is. */
  lemma SecondAxisOrthogonal(v1: Vector3, invLen: real)
    requires invLen != 0.0
    ensures Dot(SecondAxis(v1, invLen), v1) == 0.0
    ensures v1 != Zero ==> SecondAxis(v1, invLen) != Zero
  {
    QuarterTurnsOrthogonal(v1, invLen);
    if v1 != Zero {
      QuarterTurnsNonzero(v1, invLen);
    }
  }

  /** `CoordinateSystem(v1, &v2, &v3)`: `sqrtf` is whatever function the caller
      supplies; only a nonzero square root is required, so that `1/sqrtf(...)`
      is defined. */
  method CoordinateSystem(v1: Vector3, sqrtf: real -> real) returns (v2: Vector3, v3: Vector3)
    requires sqrtf(CoordinateSystemRadicand(v1)) != 0.0
    ensures v2 == SecondAxis(v1, 1.0 / sqrtf(CoordinateSystemRadicand(v1)))
    ensures Dot(v2, v1) == 0.0
    ensures v1 != Zero ==> v2 != Zero
    ensures v3 == Cross(v1, v2)
    ensures Dot(v3, v1) == 0.0 && Dot(v3, v2) == 0.0
  {
    var len := sqrtf(CoordinateSystemRadicand(v1));
    ReciprocalNonzero(len);
    SecondAxisOrthogonal(v1, 1.0 / len);
    v2 := SecondAxis(v1, 1.0 / len);
    v3 := Cross(v1, v2);
  }

  /** A Vector3 object whose fields the compound operators and the mutable
      `operator[]` update in place. */
  class Vector3Var {
    var x: real
    var y: real
    var z: real

    function Value(): Vector3
      reads this
    {
      Vector3(x, y, z)
    }

    /** The void constructor copies the uninitialised `z` into `y` and `x`:
        the three components are equal, and no particular value is promised. */
    constructor Void()
      ensures x == y == z
    {
      new;
      y := z;
      x := y;
    }

    constructor (xx: real, yy: real, zz: real)
      ensures Value() == Vector3(xx, yy, zz)
    {
      x, y, z := xx, yy, zz;
    }

    method AddAssign(v: Vector3)
      modifies this
      ensures Value() == Add(old(Value()), v)
    {
      x := x + v.x;
      y := y + v.y;
      z := z + v.z;
    }

    method SubAssign(v: Vector3)
      modifies this
      ensures Value() == Sub(old(Value()), v)
    {
      x := x - v.x;
      y := y - v.y;
      z := z - v.z;
    }

    method MulAssign(s: real)
      modifies this
      ensures Value() == Mul(old(Value()), s)
    {
      x := x * s;
      y := y * s;
      z := z * s;
    }

    method DivAssign(s: real)
      requires s != 0.0
      modifies this
      ensures Value() == Div(old(Value()), s)
    {
      var inv := 1.0 / s;
      x := x * inv;
      y := y * inv;
      z := z * inv;
    }

    /** The mutable `operator[]`, used as the target of an assignment. */
    method SetAt(i: int, a: real)
      requires 0 <= i <= 2
      modifies this
      ensures Value() == With(old(Value()), i, a)
    {
      if i == 0 { x := a; } else if i == 1 { y := a; } else { z := a; }
    }
  }
}
