/** Three-component positions (Math::Point3). A point minus a point is a
    Vector3; a point plus or minus a Vector3 is a point. */
module Points {
  import Vectors

  /** A Point3 as a value. */
  datatype Point3 = Point3(x: real, y: real, z: real)

  const Origin: Point3 := Point3(0.0, 0.0, 0.0)

  /** The const `operator[]`: coordinate `i` of `p`, for `0 <= i <= 2`. */
  function Index(p: Point3, i: int): (r: real)
    requires 0 <= i <= 2
    ensures i == 0 ==> r == p.x
    ensures i == 1 ==> r == p.y
    ensures i == 2 ==> r == p.z
  {
    if i == 0 then p.x else if i == 1 then p.y else p.z
  }

  /** The value after writing `a` through the mutable `operator[]` at `i`. */
  function With(p: Point3, i: int, a: real): (r: Point3)
    requires 0 <= i <= 2
    ensures Index(r, i) == a
    ensures forall j :: 0 <= j <= 2 && j != i ==> Index(r, j) == Index(p, j)
  {
    if i == 0 then p.(x := a) else if i == 1 then p.(y := a) else p.(z := a)
  }

  /** Point `+` Vector3. */
  function AddVector(p: Point3, v: Vectors.Vector3): (r: Point3)
    ensures forall i :: 0 <= i <= 2 ==> Index(r, i) == Index(p, i) + Vectors.Index(v, i)
  {
    Point3(p.x + v.x, p.y + v.y, p.z + v.z)
  }

  /** Point `-` Vector3. */
  function SubVector(p: Point3, v: Vectors.Vector3): (r: Point3)
    ensures forall i :: 0 <= i <= 2 ==> Index(r, i) == Index(p, i) - Vectors.Index(v, i)
  {
    Point3(p.x - v.x, p.y - v.y, p.z - v.z)
  }

  /** Point `-` point: the Vector3 from `q` to `p`. */
  function Diff(p: Point3, q: Point3): (r: Vectors.Vector3)
    ensures forall i :: 0 <= i <= 2 ==> Vectors.Index(r, i) == Index(p, i) - Index(q, i)
    ensures AddVector(q, r) == p
  {
    Vectors.Vector3(p.x - q.x, p.y - q.y, p.z - q.z)
  }

  /** `operator*` by a scalar on the right. */
  function Mul(p: Point3, s: real): (r: Point3)
    ensures forall i :: 0 <= i <= 2 ==> Index(r, i) == s * Index(p, i)
  {
    Point3(s * p.x, s * p.y, s * p.z)
  }

  /** `operator/`: the source asserts `s != 0` and multiplies by `1/s`. */
  function Div(p: Point3, s: real): (r: Point3)
    requires s != 0.0
    ensures Mul(r, s) == p
  {
    var inv := 1.0 / s;
    Point3(inv * p.x, inv * p.y, inv * p.z)
  }

  /** Unary `operator-`: the reflection through the origin. */
  function Neg(p: Point3): (r: Point3)
    ensures Diff(r, Origin) == Vectors.Neg(Diff(p, Origin))
    ensures r == Mul(p, -1.0)
  {
    Point3(-p.x, -p.y, -p.z)
  }

  /** The free `operator*(float, Point3)`, scalar on the left. */
  function ScalarMul(f: real, p: Point3): (r: Point3)
    ensures forall i :: 0 <= i <= 2 ==> Index(r, i) == Index(p, i) * f
  {
    Mul(p, f)
  }

  function DistanceSquared(p1: Point3, p2: Point3): (r: real)
    ensures r >= 0.0
  {
    Vectors.LengthSquared(Diff(p1, p2))
  }

  lemma AddSubVectorCancel(p: Point3, v: Vectors.Vector3)
    ensures SubVector(AddVector(p, v), v) == p
  {
  }

  lemma DiffSelfIsZero(p: Point3)
    ensures Diff(p, p) == Vectors.Zero
  {
  }

  lemma AddDiff(p: Point3, q: Point3)
    ensures AddVector(q, Diff(p, q)) == p
  {
  }

  lemma DistanceSquaredSymmetric(p1: Point3, p2: Point3)
    ensures DistanceSquared(p1, p2) == DistanceSquared(p2, p1)
  {
    var d, e := Diff(p1, p2), Diff(p2, p1);
    assert e == Vectors.Neg(d);
    NegSquare(d.x);
    NegSquare(d.y);
    NegSquare(d.z);
  }

  lemma NegSquare(r: real)
    ensures (-r) * (-r) == r * r
  {
  }

  lemma DistanceSquaredSelf(p: Point3)
    ensures DistanceSquared(p, p) == 0.0
  {
    DiffSelfIsZero(p);
  }

  /** A Point3 object whose fields the compound operators and the mutable
      `operator[]` update in place. */
  class Point3Var {
    var x: real
    var y: real
    var z: real

    function Value(): Point3
      reads this
    {
      Point3(x, y, z)
    }

    /** The void constructor places the point at the origin. */
    constructor Void()
      ensures Value() == Origin
    {
      x, y, z := 0.0, 0.0, 0.0;
    }

    constructor (xx: real, yy: real, zz: real)
      ensures Value() == Point3(xx, yy, zz)
    {
      x, y, z := xx, yy, zz;
    }

    method AddAssign(v: Vectors.Vector3)
      modifies this
      ensures Value() == AddVector(old(Value()), v)
    {
      x := x + v.x;
      y := y + v.y;
      z := z + v.z;
    }

    method SubAssign(v: Vectors.Vector3)
      modifies this
      ensures Value() == SubVector(old(Value()), v)
    {
      x := x - v.x;
      y := y - v.y;
      z := z - v.z;
    }

    method MulAssign(s: real)
      modifies this
      ensures Value() == Mul(old(Value()), s)
    {
      x := x * s;
      y := y * s;
      z := z * s;
    }

    method DivAssign(s: real)
      requires s != 0.0
      modifies this
      ensures Value() == Div(old(Value()), s)
    {
      var inv := 1.0 / s;
      x := x * inv;
      y := y * inv;
      z := z * inv;
    }

    /** The mutable `operator[]`, used as the target of an assignment. */
    method SetAt(i: int, a: real)
      requires 0 <= i <= 2
      modifies this
      ensures Value() == With(old(Value()), i, a)
    {
      if i == 0 { x := a; } else if i == 1 { y := a; } else { z := a; }
    }
  }
}
