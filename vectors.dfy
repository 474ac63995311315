/** Three-vector arithmetic over the reals: the `reb_vec3d_*` helpers of rotations.c.
    Doubles are modelled as `real`; rounding is not modelled. */
module Vectors {

  /** A point or a free direction in Euclidean 3-space (`struct reb_vec3d`). */
  datatype Vec3 = Vec3(x: real, y: real, z: real)

  const Zero: Vec3 := Vec3(0.0, 0.0, 0.0)

  /** `reb_vec3d_mul`: `v` scaled by `s` (lemmas `ScaleDot`, `ScaleLength`). */
  function Scale(v: Vec3, s: real): Vec3
  {
    Vec3(s * v.x, s * v.y, s * v.z)
  }

  /** `reb_vec3d_add`: the component-wise sum (lemmas `AddDot`, `AddLength`). */
  function Add(v: Vec3, w: Vec3): Vec3
  {
    Vec3(v.x + w.x, v.y + w.y, v.z + w.z)
  }

  /** `reb_vec3d_cross`: the right-handed cross product (lemma `CrossOrthogonal`). */
  function Cross(a: Vec3, b: Vec3): Vec3
  {
    Vec3(a.y * b.z - a.z * b.y,
         a.z * b.x - a.x * b.z,
         a.x * b.y - a.y * b.x)
  }

  /** `reb_vec3d_dot`. */
  function Dot(a: Vec3, b: Vec3): real
  {
    a.x * b.x + a.y * b.y + a.z * b.z
  }

  /** `reb_vec3d_length_squared`: never negative, and zero exactly for the zero vector. */
  function LengthSquared(v: Vec3): (r: real)
    ensures r >= 0.0
    ensures r == 0.0 <==> v == Zero
  {
    DotSelfPositive(v);
    Dot(v, v)
  }

  /** The square of a non-zero real is positive. */
  lemma SquarePositive(x: real, sq: real)
    requires x != 0.0 && sq == x * x
    ensures sq > 0.0
  {
    var k := 1.0 / x;
    assert x * k == 1.0;
    assert sq * (k * k) == (x * k) * (x * k);
    assert sq * (k * k) == 1.0;
  }

  /** A vector's dot product with itself is a sum of three squares. */
  lemma DotSelfPositive(v: Vec3)
    ensures Dot(v, v) >= 0.0
    ensures Dot(v, v) == 0.0 <==> v == Zero
  {
    var xx, yy, zz := v.x * v.x, v.y * v.y, v.z * v.z;
    assert xx >= 0.0 && yy >= 0.0 && zz >= 0.0;
    if v.x != 0.0 { SquarePositive(v.x, xx); }
    if v.y != 0.0 { SquarePositive(v.y, yy); }
    if v.z != 0.0 { SquarePositive(v.z, zz); }
    assert Dot(v, v) == xx + yy + zz;
  }

  /** The square root that `reb_vec3d_normalize` calls is not definable here;
      operations that normalise take it as a parameter satisfying this predicate. */
  ghost predicate IsSqrt(sqrt: real -> real)
  {
    forall x: real :: 0.0 <= x ==> 0.0 <= sqrt(x) && sqrt(x) * sqrt(x) == x
  }

  /** The non-negative root of a positive number is positive. */
  lemma RootPositive(s: real, n: real)
    requires s >= 0.0 && s * s == n && n > 0.0
    ensures s > 0.0
  {
    if s == 0.0 {
      assert false;
    }
  }

  /** `reb_vec3d_normalize`: `v` divided by its length. The source divides by zero on
      the zero vector; callers must pass a non-zero vector. The result is the unit
      vector with `v == |v| * r`, where `|v|` is `Dot(r, v)`. */
  function Normalize(v: Vec3, sqrt: real -> real): (r: Vec3)
    requires IsSqrt(sqrt) && v != Zero
    ensures LengthSquared(r) == 1.0
    ensures Dot(r, v) > 0.0 && Scale(r, Dot(r, v)) == v
  {
    var n := LengthSquared(v);
    var len := sqrt(n);
    RootPositive(len, n);
    var k := 1.0 / len;
    NormalizeFactor(v, n, len, k);
    Scale(v, k)
  }

  /** The arithmetic behind `Normalize`: scaling by `k == 1 / sqrt(n)`. */
  lemma NormalizeFactor(v: Vec3, n: real, len: real, k: real)
    requires n == LengthSquared(v) && n > 0.0
    requires len > 0.0 && len * len == n && k == 1.0 / len
    ensures k > 0.0 && k * k * n == 1.0
    ensures Dot(Scale(v, k), v) > 0.0 && Scale(Scale(v, k), Dot(Scale(v, k), v)) == v
  {
    assert k * len == 1.0;
    assert k * k * n == 1.0 by {
      assert k * k * n == (k * len) * (k * len);
    }
    var d := Dot(Scale(v, k), v);
    assert d == k * n;
    var w := Scale(Scale(v, k), d);
    assert w.x == v.x * (k * k * n);
    assert w.y == v.y * (k * k * n);
    assert w.z == v.z * (k * k * n);
  }

  /** Scaling a vector scales its dot products. */
  lemma ScaleDot(v: Vec3, w: Vec3, s: real)
    ensures Dot(Scale(v, s), w) == s * Dot(v, w)
    ensures Dot(w, Scale(v, s)) == s * Dot(v, w)
  {
  }

  /** Scaling a vector by `s` scales its squared length by `s * s`. */
  lemma ScaleLength(v: Vec3, s: real)
    ensures LengthSquared(Scale(v, s)) == s * s * LengthSquared(v)
  {
  }

  /** The dot product distributes over a sum. */
  lemma AddDot(v: Vec3, w: Vec3, u: Vec3)
    ensures Dot(Add(v, w), u) == Dot(v, u) + Dot(w, u)
    ensures Dot(u, Add(v, w)) == Dot(u, v) + Dot(u, w)
  {
  }

  /** The squared length of a sum. */
  lemma AddLength(v: Vec3, w: Vec3)
    ensures LengthSquared(Add(v, w)) == LengthSquared(v) + 2.0 * Dot(v, w) + LengthSquared(w)
  {
  }

  /** The cross product is orthogonal to both of its arguments. */
  lemma CrossOrthogonal(a: Vec3, b: Vec3)
    ensures Dot(a, Cross(a, b)) == 0.0 && Dot(b, Cross(a, b)) == 0.0
  {
  }

  /** The cross product is anti-commutative. */
  lemma CrossAntiCommutes(a: Vec3, b: Vec3)
    ensures Cross(b, a) == Scale(Cross(a, b), -1.0)
  {
  }

  /** The cross product distributes over a sum in its second argument. */
  lemma CrossAdd(a: Vec3, b: Vec3, c: Vec3)
    ensures Cross(a, Add(b, c)) == Add(Cross(a, b), Cross(a, c))
  {
  }

  /** The cross product is linear in its second argument. */
  lemma CrossScale(a: Vec3, b: Vec3, s: real)
    ensures Cross(a, Scale(b, s)) == Scale(Cross(a, b), s)
  {
    var c := Cross(a, Scale(b, s));
    assert c.x == s * Cross(a, b).x by { ScaledDifference(s, a.y, b.z, a.z, b.y); }
    assert c.y == s * Cross(a, b).y by { ScaledDifference(s, a.z, b.x, a.x, b.z); }
    assert c.z == s * Cross(a, b).z by { ScaledDifference(s, a.x, b.y, a.y, b.x); }
  }

  lemma ScaledDifference(s: real, p: real, q: real, u: real, w: real)
    ensures p * (s * q) - u * (s * w) == s * (p * q - u * w)
  {
  }

  /** A vector's cross product with itself vanishes. */
  lemma CrossSelf(a: Vec3)
    ensures Cross(a, a) == Zero
  {
  }

  /** The cross product distributes over a sum in its first argument. */
  lemma CrossAddLeft(a: Vec3, b: Vec3, c: Vec3)
    ensures Cross(Add(b, c), a) == Add(Cross(b, a), Cross(c, a))
  {
  }

  /** The cross product is linear in its first argument. */
  lemma CrossScaleLeft(a: Vec3, b: Vec3, s: real)
    ensures Cross(Scale(b, s), a) == Scale(Cross(b, a), s)
  {
    var c := Cross(Scale(b, s), a);
    assert c.x == s * Cross(b, a).x by { ScaledDifference(s, a.z, b.y, a.y, b.z); }
    assert c.y == s * Cross(b, a).y by { ScaledDifference(s, a.x, b.z, a.z, b.x); }
    assert c.z == s * Cross(b, a).z by { ScaledDifference(s, a.y, b.x, a.x, b.y); }
  }

  /** Scaling by a non-zero factor is injective. */
  lemma ScaleCancel(a: Vec3, b: Vec3, s: real)
    requires s != 0.0 && Scale(a, s) == Scale(b, s)
    ensures a == b
  {
    Cancel(s, a.x, b.x);
    Cancel(s, a.y, b.y);
    Cancel(s, a.z, b.z);
  }

  /** Multiplication by a non-zero factor is injective. */
  lemma Cancel(s: real, x: real, y: real)
    requires s != 0.0 && x * s == y * s
    ensures x == y
  {
    var k := 1.0 / s;
    assert s * k == 1.0;
    assert x == (x * s) * k;
    assert y == (y * s) * k;
  }

  /** A factor of a positive product with a positive cofactor is positive. */
  lemma PositiveFactor(x: real, l: real)
    requires l > 0.0 && x * l > 0.0
    ensures x > 0.0
  {
    if x <= 0.0 {
      assert false;
    }
  }

  /** Positive reals with equal squares are equal. */
  lemma PositiveRootUnique(a: real, b: real)
    requires a > 0.0 && b > 0.0 && a * a == b * b
    ensures a == b
  {
    if a < b {
      assert false;
    } else if b < a {
      assert false;
    }
  }

  /** Normalising a unit vector leaves it unchanged. */
  lemma NormalizeUnit(v: Vec3, sqrt: real -> real)
    requires IsSqrt(sqrt) && LengthSquared(v) == 1.0
    ensures v != Zero && Normalize(v, sqrt) == v
  {
    var s := sqrt(1.0);
    assert s >= 0.0 && s * s == 1.0;
    if s < 1.0 {
      assert false;
    } else if s > 1.0 {
      assert false;
    }
    assert Normalize(v, sqrt) == Scale(v, 1.0 / s);
  }

  /** Lagrange's identity: the squared length of a cross product. */
  lemma Lagrange(a: Vec3, b: Vec3)
    ensures LengthSquared(Cross(a, b)) == LengthSquared(a) * LengthSquared(b) - Dot(a, b) * Dot(a, b)
  {
    LagrangeScalar(a.x, a.y, a.z, b.x, b.y, b.z);
  }

  /** Lagrange's identity over scalars. */
  lemma LagrangeScalar(a1: real, a2: real, a3: real, b1: real, b2: real, b3: real)
    ensures (a2 * b3 - a3 * b2) * (a2 * b3 - a3 * b2) + (a3 * b1 - a1 * b3) * (a3 * b1 - a1 * b3)
            + (a1 * b2 - a2 * b1) * (a1 * b2 - a2 * b1)
         == (a1 * a1 + a2 * a2 + a3 * a3) * (b1 * b1 + b2 * b2 + b3 * b3)
            - (a1 * b1 + a2 * b2 + a3 * b3) * (a1 * b1 + a2 * b2 + a3 * b3)
  {
  }

  /** The "BAC-CAB" expansion of a double cross product, componentwise:
      `a x (b x c) == (a . c) b - (a . b) c`. */
  lemma DoubleCross(a: Vec3, b: Vec3, c: Vec3)
    ensures Cross(a, Cross(b, c)).x == Dot(a, c) * b.x - Dot(a, b) * c.x
    ensures Cross(a, Cross(b, c)).y == Dot(a, c) * b.y - Dot(a, b) * c.y
    ensures Cross(a, Cross(b, c)).z == Dot(a, c) * b.z - Dot(a, b) * c.z
  {
    DoubleCrossX(a, b, c);
    DoubleCrossY(a, b, c);
    DoubleCrossZ(a, b, c);
  }

  lemma DoubleCrossX(a: Vec3, b: Vec3, c: Vec3)
    ensures Cross(a, Cross(b, c)).x == Dot(a, c) * b.x - Dot(a, b) * c.x
  {
    DoubleCrossXScalar(a.x, a.y, a.z, b.x, b.y, b.z, c.x, c.y, c.z);
  }

  lemma DoubleCrossY(a: Vec3, b: Vec3, c: Vec3)
    ensures Cross(a, Cross(b, c)).y == Dot(a, c) * b.y - Dot(a, b) * c.y
  {
    DoubleCrossYScalar(a.x, a.y, a.z, b.x, b.y, b.z, c.x, c.y, c.z);
  }

  lemma DoubleCrossZ(a: Vec3, b: Vec3, c: Vec3)
    ensures Cross(a, Cross(b, c)).z == Dot(a, c) * b.z - Dot(a, b) * c.z
  {
    DoubleCrossZScalar(a.x, a.y, a.z, b.x, b.y, b.z, c.x, c.y, c.z);
  }

  /** The x component of the double cross product expansion, over scalars. */
  lemma DoubleCrossXScalar(a1: real, a2: real, a3: real, b1: real, b2: real, b3: real,
                            c1: real, c2: real, c3: real)
    ensures a2 * (b1 * c2 - b2 * c1) - a3 * (b3 * c1 - b1 * c3)
         == (a1 * c1 + a2 * c2 + a3 * c3) * b1 - (a1 * b1 + a2 * b2 + a3 * b3) * c1
  {
  }

  /** The y component of the double cross product expansion, over scalars. */
  lemma DoubleCrossYScalar(a1: real, a2: real, a3: real, b1: real, b2: real, b3: real,
                            c1: real, c2: real, c3: real)
    ensures a3 * (b2 * c3 - b3 * c2) - a1 * (b1 * c2 - b2 * c1)
         == (a1 * c1 + a2 * c2 + a3 * c3) * b2 - (a1 * b1 + a2 * b2 + a3 * b3) * c2
  {
  }

  /** The z component of the double cross product expansion, over scalars. */
  lemma DoubleCrossZScalar(a1: real, a2: real, a3: real, b1: real, b2: real, b3: real,
                            c1: real, c2: real, c3: real)
    ensures a1 * (b3 * c1 - b1 * c3) - a2 * (b2 * c3 - b3 * c2)
         == (a1 * c1 + a2 * c2 + a3 * c3) * b3 - (a1 * b1 + a2 * b2 + a3 * b3) * c3
  {
  }
}
