/** Applying a rotation quaternion to a vector: the formula of `reb_vec3d_irotate`
    and the laws that make it a rotation. */
module RotationFormula {
  import opened Vectors
  import opened Quaternions

  /** The value `reb_vec3d_irotate` writes back: with `u` the vector part of `q`,
      `t = 2 (u x v)` and the result `v + q.r t + u x t`. */
  function Rotated(v: Vec3, q: Rotation): Vec3
  {
    var imag := Imag(q);
    var t := Scale(Cross(imag, v), 2.0);
    Add(v, Add(Scale(t, q.r), Cross(imag, t)))
  }

  /** The identity rotation leaves every vector unchanged. */
  lemma RotatedIdentity(v: Vec3)
    ensures Rotated(v, Identity()) == v
  {
    var u := Imag(Identity());
    assert u == Zero;
    assert Cross(u, v) == Zero;
    var t := Scale(Cross(u, v), 2.0);
    assert t == Zero;
    assert Cross(u, t) == Zero;
  }

  /** The formula agrees with the quaternion sandwich `q v q*` up to a multiple of `v`
      that vanishes for unit `q`. */
  lemma SandwichGeneral(v: Vec3, q: Rotation)
    ensures Mul(Mul(q, Pure(v)), Conjugate(q))
         == Pure(Add(Rotated(v, q), Scale(v, Quaternions.LengthSquared(q) - 1.0)))
  {
    SandwichX(v, q);
    SandwichY(v, q);
    SandwichZ(v, q);
    SandwichRealPart(v, q);
  }

  /** `SandwichGeneral`, one component at a time. */
  lemma SandwichX(v: Vec3, q: Rotation)
    ensures Mul(Mul(q, Pure(v)), Conjugate(q)).ix
         == Rotated(v, q).x + (Quaternions.LengthSquared(q) - 1.0) * v.x
  {
    RotatedX(v, q);
    SandwichIx(v, q);
    SandwichScalarX(q.ix, q.iy, q.iz, q.r, v.x, v.y, v.z, Quaternions.LengthSquared(q) - 1.0);
  }

  lemma SandwichY(v: Vec3, q: Rotation)
    ensures Mul(Mul(q, Pure(v)), Conjugate(q)).iy
         == Rotated(v, q).y + (Quaternions.LengthSquared(q) - 1.0) * v.y
  {
    RotatedY(v, q);
    SandwichIy(v, q);
    SandwichScalarY(q.ix, q.iy, q.iz, q.r, v.x, v.y, v.z, Quaternions.LengthSquared(q) - 1.0);
  }

  lemma SandwichZ(v: Vec3, q: Rotation)
    ensures Mul(Mul(q, Pure(v)), Conjugate(q)).iz
         == Rotated(v, q).z + (Quaternions.LengthSquared(q) - 1.0) * v.z
  {
    RotatedZ(v, q);
    SandwichIz(v, q);
    SandwichScalarZ(q.ix, q.iy, q.iz, q.r, v.x, v.y, v.z, Quaternions.LengthSquared(q) - 1.0);
  }

  lemma SandwichRealPart(v: Vec3, q: Rotation)
    ensures Mul(Mul(q, Pure(v)), Conjugate(q)).r == 0.0
  {
    SandwichR(v, q);
    SandwichReal(q.ix, q.iy, q.iz, q.r, v.x, v.y, v.z);
  }

  /** The formula expanded, one component at a time: with `u` the vector part of `q`,
      `Rotated(v, q) == (1 - 2 |u|^2) v + 2 (u . v) u + 2 q.r (u x v)`. */
  lemma ExpandedX(v: Vec3, q: Rotation)
    ensures var u := Imag(q);
            Rotated(v, q).x == (1.0 - 2.0 * Vectors.LengthSquared(u)) * v.x + (2.0 * Dot(u, v)) * q.ix
                              + (2.0 * q.r) * Cross(u, v).x
  {
    var u := Imag(q);
    var n, d, c := Vectors.LengthSquared(u), Dot(u, v), Cross(u, v);
    RotatedX(v, q);
    ExpandedComponent(q.ix, q.iy, q.iz, q.r, v.x, v.y, v.z, n, d, c.x);
  }

  lemma ExpandedY(v: Vec3, q: Rotation)
    ensures var u := Imag(q);
            Rotated(v, q).y == (1.0 - 2.0 * Vectors.LengthSquared(u)) * v.y + (2.0 * Dot(u, v)) * q.iy
                              + (2.0 * q.r) * Cross(u, v).y
  {
    var u := Imag(q);
    var n, d, c := Vectors.LengthSquared(u), Dot(u, v), Cross(u, v);
    RotatedY(v, q);
    ExpandedComponent(q.iy, q.iz, q.ix, q.r, v.y, v.z, v.x, n, d, c.y);
  }

  lemma ExpandedZ(v: Vec3, q: Rotation)
    ensures var u := Imag(q);
            Rotated(v, q).z == (1.0 - 2.0 * Vectors.LengthSquared(u)) * v.z + (2.0 * Dot(u, v)) * q.iz
                              + (2.0 * q.r) * Cross(u, v).z
  {
    var u := Imag(q);
    var n, d, c := Vectors.LengthSquared(u), Dot(u, v), Cross(u, v);
    RotatedZ(v, q);
    ExpandedComponent(q.iz, q.ix, q.iy, q.r, v.z, v.x, v.y, n, d, c.z);
  }

  /** One component of the expanded formula over scalars. */
  lemma ExpandedComponent(a: real, b: real, c: real, r: real, x: real, y: real, z: real,
                          n: real, d: real, cx: real)
    requires n == a * a + b * b + c * c && d == a * x + b * y + c * z && cx == b * z - c * y
    ensures x + (r * (2.0 * (b * z - c * y)) + (b * (2.0 * (a * y - b * x)) - c * (2.0 * (c * x - a * z))))
         == (1.0 - 2.0 * n) * x + (2.0 * d) * a + (2.0 * r) * cx
  {
  }

  /** For a unit quaternion the formula is the sandwich `q v q*`. */
  lemma Sandwich(v: Vec3, q: Rotation)
    requires Quaternions.LengthSquared(q) == 1.0
    ensures Pure(Rotated(v, q)) == Mul(Mul(q, Pure(v)), Conjugate(q))
  {
    SandwichGeneral(v, q);
    assert Scale(v, Quaternions.LengthSquared(q) - 1.0) == Zero;
  }

  /** A unit quaternion preserves lengths. */
  lemma RotatedLength(v: Vec3, q: Rotation)
    requires Quaternions.LengthSquared(q) == 1.0
    ensures Vectors.LengthSquared(Rotated(v, q)) == Vectors.LengthSquared(v)
  {
    Sandwich(v, q);
    MulLength(q, Pure(v));
    MulLength(Mul(q, Pure(v)), Conjugate(q));
    assert Quaternions.LengthSquared(Pure(Rotated(v, q))) == Vectors.LengthSquared(Rotated(v, q));
    assert Quaternions.LengthSquared(Pure(v)) == Vectors.LengthSquared(v);
  }

  /** Composition order, as `reb_rotation_mul` promises: rotating by `p * q` is rotating
      by `q` first and by `p` second. */
  lemma RotatedComposition(v: Vec3, p: Rotation, q: Rotation)
    requires Quaternions.LengthSquared(p) == 1.0 && Quaternions.LengthSquared(q) == 1.0
    ensures Rotated(v, Mul(p, q)) == Rotated(Rotated(v, q), p)
  {
    var pq, w := Mul(p, q), Rotated(v, q);
    var (cp, cq, pv) := (Conjugate(p), Conjugate(q), Pure(v));
    MulLength(p, q);
    Sandwich(v, pq);
    Sandwich(v, q);
    Sandwich(w, p);
    ConjugateOfProduct(p, q);
    calc {
      Pure(Rotated(v, pq));
      Mul(Mul(pq, pv), Mul(cq, cp));
      { MulAssociative(Mul(pq, pv), cq, cp); }
      Mul(Mul(Mul(pq, pv), cq), cp);
      { MulAssociative(p, q, pv); }
      Mul(Mul(Mul(p, Mul(q, pv)), cq), cp);
      { MulAssociative(p, Mul(q, pv), cq); }
      Mul(Mul(p, Mul(Mul(q, pv), cq)), cp);
      Mul(Mul(p, Pure(w)), cp);
      Pure(Rotated(w, p));
    }
    PureInjective(Rotated(v, pq), Rotated(w, p));
  }

  lemma PureInjective(v: Vec3, w: Vec3)
    requires Pure(v) == Pure(w)
    ensures v == w
  {
    assert v == Imag(Pure(v));
  }

  /** Rotating by the inverse of a unit quaternion undoes the rotation, in either order. */
  lemma RotatedInverse(v: Vec3, q: Rotation)
    requires Quaternions.LengthSquared(q) == 1.0
    ensures Rotated(Rotated(v, q), Inverse(q)) == v
    ensures Rotated(Rotated(v, Inverse(q)), q) == v
  {
    InverseOfUnit(q);
    var c := Conjugate(q);
    MulConjugate(q);
    assert Mul(c, q) == Identity() && Mul(q, c) == Identity();
    RotatedComposition(v, c, q);
    RotatedComposition(v, q, c);
    RotatedIdentity(v);
  }

  /** `Rotated` written out in the components of `v` and `q`, one component at a time. */
  lemma RotatedX(v: Vec3, q: Rotation)
    ensures Rotated(v, q).x
         == v.x + (q.r * (2.0 * (q.iy * v.z - q.iz * v.y))
            + (q.iy * (2.0 * (q.ix * v.y - q.iy * v.x)) - q.iz * (2.0 * (q.iz * v.x - q.ix * v.z))))
  {
  }

  lemma RotatedY(v: Vec3, q: Rotation)
    ensures Rotated(v, q).y
         == v.y + (q.r * (2.0 * (q.iz * v.x - q.ix * v.z))
            + (q.iz * (2.0 * (q.iy * v.z - q.iz * v.y)) - q.ix * (2.0 * (q.ix * v.y - q.iy * v.x))))
  {
  }

  lemma RotatedZ(v: Vec3, q: Rotation)
    ensures Rotated(v, q).z
         == v.z + (q.r * (2.0 * (q.ix * v.y - q.iy * v.x))
            + (q.ix * (2.0 * (q.iz * v.x - q.ix * v.z)) - q.iy * (2.0 * (q.iy * v.z - q.iz * v.y))))
  {
  }

  /** The sandwich `q v q*` written out in the components of `v` and `q`, one component
      at a time. */
  lemma SandwichIx(v: Vec3, q: Rotation)
    ensures Mul(Mul(q, Pure(v)), Conjugate(q)).ix
         == (-q.ix * v.x - q.iy * v.y - q.iz * v.z) * -q.ix + (q.r * v.x + q.iy * v.z - q.iz * v.y) * q.r
            + (q.r * v.y - q.ix * v.z + q.iz * v.x) * -q.iz - (q.r * v.z + q.ix * v.y - q.iy * v.x) * -q.iy
  {
    MulLeftX(q, Pure(v), Conjugate(q));
  }

  lemma SandwichIy(v: Vec3, q: Rotation)
    ensures Mul(Mul(q, Pure(v)), Conjugate(q)).iy
         == (-q.ix * v.x - q.iy * v.y - q.iz * v.z) * -q.iy - (q.r * v.x + q.iy * v.z - q.iz * v.y) * -q.iz
            + (q.r * v.y - q.ix * v.z + q.iz * v.x) * q.r + (q.r * v.z + q.ix * v.y - q.iy * v.x) * -q.ix
  {
    MulLeftY(q, Pure(v), Conjugate(q));
  }

  lemma SandwichIz(v: Vec3, q: Rotation)
    ensures Mul(Mul(q, Pure(v)), Conjugate(q)).iz
         == (-q.ix * v.x - q.iy * v.y - q.iz * v.z) * -q.iz + (q.r * v.x + q.iy * v.z - q.iz * v.y) * -q.iy
            - (q.r * v.y - q.ix * v.z + q.iz * v.x) * -q.ix + (q.r * v.z + q.ix * v.y - q.iy * v.x) * q.r
  {
    MulLeftZ(q, Pure(v), Conjugate(q));
  }

  lemma SandwichR(v: Vec3, q: Rotation)
    ensures Mul(Mul(q, Pure(v)), Conjugate(q)).r
         == (-q.ix * v.x - q.iy * v.y - q.iz * v.z) * q.r - (q.r * v.x + q.iy * v.z - q.iz * v.y) * -q.ix
            - (q.r * v.y - q.ix * v.z + q.iz * v.x) * -q.iy - (q.r * v.z + q.ix * v.y - q.iy * v.x) * -q.iz
  {
    MulLeftR(q, Pure(v), Conjugate(q));
  }

  /** The vector components of the sandwich identity over scalars: `a, b, c, r` are the
      quaternion, `x, y, z` the vector. */
  lemma SandwichScalarX(a: real, b: real, c: real, r: real, x: real, y: real, z: real, k: real)
    requires k == r * r + a * a + b * b + c * c - 1.0
    ensures (-a * x - b * y - c * z) * -a + (r * x + b * z - c * y) * r
            + (r * y - a * z + c * x) * -c - (r * z + a * y - b * x) * -b
         == x + (r * (2.0 * (b * z - c * y)) + (b * (2.0 * (a * y - b * x)) - c * (2.0 * (c * x - a * z))))
            + k * x
  {
  }

  lemma SandwichScalarY(a: real, b: real, c: real, r: real, x: real, y: real, z: real, k: real)
    requires k == r * r + a * a + b * b + c * c - 1.0
    ensures (-a * x - b * y - c * z) * -b - (r * x + b * z - c * y) * -c
            + (r * y - a * z + c * x) * r + (r * z + a * y - b * x) * -a
         == y + (r * (2.0 * (c * x - a * z)) + (c * (2.0 * (b * z - c * y)) - a * (2.0 * (a * y - b * x))))
            + k * y
  {
  }

  lemma SandwichScalarZ(a: real, b: real, c: real, r: real, x: real, y: real, z: real, k: real)
    requires k == r * r + a * a + b * b + c * c - 1.0
    ensures (-a * x - b * y - c * z) * -c + (r * x + b * z - c * y) * -b
            - (r * y - a * z + c * x) * -a + (r * z + a * y - b * x) * r
         == z + (r * (2.0 * (a * y - b * x)) + (a * (2.0 * (c * x - a * z)) - b * (2.0 * (b * z - c * y))))
            + k * z
  {
  }

  /** The real part of the sandwich of a pure quaternion vanishes. */
  lemma SandwichReal(a: real, b: real, c: real, r: real, x: real, y: real, z: real)
    ensures (-a * x - b * y - c * z) * r - (r * x + b * z - c * y) * -a
            - (r * y - a * z + c * x) * -b - (r * z + a * y - b * x) * -c == 0.0
  {
  }
}
