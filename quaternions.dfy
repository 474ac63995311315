/** Quaternion algebra over the reals: the `reb_rotation_*` helpers of rotations.c.
    A `reb_rotation` is the quaternion `r + ix i + iy j + iz k`. */
module Quaternions {
  import opened Vectors

  /** `struct reb_rotation`, fields in the source's order. */
  datatype Rotation = Rotation(ix: real, iy: real, iz: real, r: real)

  /** `reb_rotation_imag`: the vector part. */
  function Imag(q: Rotation): Vec3
  {
    Vec3(q.ix, q.iy, q.iz)
  }

  /** The pure quaternion whose vector part is `v`. */
  function Pure(v: Vec3): (q: Rotation)
    ensures Imag(q) == v && q.r == 0.0
  {
    Rotation(v.x, v.y, v.z, 0.0)
  }

  /** `reb_rotation_mul`: the Hamilton product `p * q` (lemmas `MulAssociative`,
      `MulLength`, `ConjugateOfProduct`). */
  function Mul(p: Rotation, q: Rotation): Rotation
  {
    Rotation(p.r * q.ix + p.ix * q.r  + p.iy * q.iz - p.iz * q.iy,
             p.r * q.iy - p.ix * q.iz + p.iy * q.r  + p.iz * q.ix,
             p.r * q.iz + p.ix * q.iy - p.iy * q.ix + p.iz * q.r,
             p.r * q.r  - p.ix * q.ix - p.iy * q.iy - p.iz * q.iz)
  }

  /** `reb_rotation_length_squared`: the squared norm, never negative. */
  function LengthSquared(q: Rotation): (n: real)
    ensures n >= 0.0
    ensures n == q.r * q.r + Vectors.LengthSquared(Imag(q))
  {
    SquareSumNonNegative(q.r, q.ix, q.iy, q.iz);
    q.r * q.r + q.ix * q.ix + q.iy * q.iy + q.iz * q.iz
  }

  /** A sum of four squares is never negative. */
  lemma SquareSumNonNegative(a: real, b: real, c: real, d: real)
    ensures a * a + b * b + c * c + d * d >= 0.0
  {
    var aa, bb, cc, dd := a * a, b * b, c * c, d * d;
    assert aa >= 0.0 && bb >= 0.0 && cc >= 0.0 && dd >= 0.0;
  }

  /** `reb_rotation_conjugate`: the vector part negated. */
  function Conjugate(q: Rotation): (c: Rotation)
    ensures c.r == q.r && Imag(c) == Scale(Imag(q), -1.0)
    ensures LengthSquared(c) == LengthSquared(q)
  {
    Rotation(-q.ix, -q.iy, -q.iz, q.r)
  }

  /** `reb_rotation_identity`. */
  function Identity(): Rotation
  {
    Rotation(0.0, 0.0, 0.0, 1.0)
  }

  /** `reb_rotation_inverse`: the conjugate divided by the squared norm. The source
      divides by zero for the zero quaternion; callers must not pass it. */
  function Inverse(q: Rotation): (inv: Rotation)
    requires LengthSquared(q) != 0.0
    ensures Mul(q, inv) == Identity() && Mul(inv, q) == Identity()
  {
    var c := Conjugate(q);
    var rl2 := 1.0 / LengthSquared(q);
    var inv := Rotation(c.ix * rl2, c.iy * rl2, c.iz * rl2, c.r * rl2);
    InverseFactor(q, rl2, inv);
    inv
  }

  /** The identity is a unit of the product on both sides. */
  lemma MulIdentity(q: Rotation)
    ensures Mul(Identity(), q) == q && Mul(q, Identity()) == q
  {
  }

  /** Conjugation is an involution. */
  lemma ConjugateInvolutive(q: Rotation)
    ensures Conjugate(Conjugate(q)) == q
  {
  }

  /** A quaternion times its conjugate, in either order, is its squared norm. */
  lemma MulConjugate(q: Rotation)
    ensures Mul(q, Conjugate(q)) == Rotation(0.0, 0.0, 0.0, LengthSquared(q))
    ensures Mul(Conjugate(q), q) == Rotation(0.0, 0.0, 0.0, LengthSquared(q))
  {
  }

  /** The arithmetic behind `Inverse`: the conjugate scaled by `k == 1 / |q|^2` is an
      inverse on both sides. */
  lemma InverseFactor(q: Rotation, k: real, inv: Rotation)
    requires LengthSquared(q) != 0.0 && k == 1.0 / LengthSquared(q)
    requires inv == Rotation(-q.ix * k, -q.iy * k, -q.iz * k, q.r * k)
    ensures Mul(q, inv) == Identity() && Mul(inv, q) == Identity()
  {
    assert k * LengthSquared(q) == 1.0;
    InverseRight(q.ix, q.iy, q.iz, q.r, k);
    InverseLeft(q.ix, q.iy, q.iz, q.r, k);
  }

  lemma InverseRight(a: real, b: real, c: real, r: real, k: real)
    requires k * (r * r + a * a + b * b + c * c) == 1.0
    ensures r * (r * k) - a * (-a * k) - b * (-b * k) - c * (-c * k) == 1.0
    ensures r * (-a * k) + a * (r * k) + b * (-c * k) - c * (-b * k) == 0.0
    ensures r * (-b * k) - a * (-c * k) + b * (r * k) + c * (-a * k) == 0.0
    ensures r * (-c * k) + a * (-b * k) - b * (-a * k) + c * (r * k) == 0.0
  {
  }

  lemma InverseLeft(a: real, b: real, c: real, r: real, k: real)
    requires k * (r * r + a * a + b * b + c * c) == 1.0
    ensures (r * k) * r - (-a * k) * a - (-b * k) * b - (-c * k) * c == 1.0
    ensures (r * k) * a + (-a * k) * r + (-b * k) * c - (-c * k) * b == 0.0
    ensures (r * k) * b - (-a * k) * c + (-b * k) * r + (-c * k) * a == 0.0
    ensures (r * k) * c + (-a * k) * b - (-b * k) * a + (-c * k) * r == 0.0
  {
  }

  /** For a unit quaternion the inverse is the conjugate. */
  lemma InverseOfUnit(q: Rotation)
    requires LengthSquared(q) == 1.0
    ensures Inverse(q) == Conjugate(q)
  {
  }

  /** The conjugate of a product is the product of the conjugates, reversed. */
  lemma ConjugateOfProduct(p: Rotation, q: Rotation)
    ensures Conjugate(Mul(p, q)) == Mul(Conjugate(q), Conjugate(p))
  {
    ConjugateOfProductVector(p, q);
    ConjugateOfProductReal(p, q);
  }

  lemma ConjugateOfProductVector(p: Rotation, q: Rotation)
    ensures Imag(Conjugate(Mul(p, q))) == Imag(Mul(Conjugate(q), Conjugate(p)))
  {
  }

  lemma ConjugateOfProductReal(p: Rotation, q: Rotation)
    ensures Conjugate(Mul(p, q)).r == Mul(Conjugate(q), Conjugate(p)).r
  {
  }

  /** Euler's four-square identity: the norm is multiplicative. */
  lemma MulLength(p: Rotation, q: Rotation)
    ensures LengthSquared(Mul(p, q)) == LengthSquared(p) * LengthSquared(q)
  {
    FourSquare(p.ix, p.iy, p.iz, p.r, q.ix, q.iy, q.iz, q.r);
  }

  lemma FourSquare(a1: real, b1: real, c1: real, r1: real, a2: real, b2: real, c2: real, r2: real)
    ensures (r1 * a2 + a1 * r2 + b1 * c2 - c1 * b2) * (r1 * a2 + a1 * r2 + b1 * c2 - c1 * b2)
          + (r1 * b2 - a1 * c2 + b1 * r2 + c1 * a2) * (r1 * b2 - a1 * c2 + b1 * r2 + c1 * a2)
          + (r1 * c2 + a1 * b2 - b1 * a2 + c1 * r2) * (r1 * c2 + a1 * b2 - b1 * a2 + c1 * r2)
          + (r1 * r2 - a1 * a2 - b1 * b2 - c1 * c2) * (r1 * r2 - a1 * a2 - b1 * b2 - c1 * c2)
         == (r1 * r1 + a1 * a1 + b1 * b1 + c1 * c1) * (r2 * r2 + a2 * a2 + b2 * b2 + c2 * c2)
  {
  }

  /** The Hamilton product is associative. */
  lemma MulAssociative(p: Rotation, q: Rotation, s: Rotation)
    ensures Mul(Mul(p, q), s) == Mul(p, Mul(q, s))
  {
    AssociativeX(p, q, s);
    AssociativeY(p, q, s);
    AssociativeZ(p, q, s);
    AssociativeR(p, q, s);
  }

  lemma AssociativeX(p: Rotation, q: Rotation, s: Rotation)
    ensures Mul(Mul(p, q), s).ix == Mul(p, Mul(q, s)).ix
  {
    AssociativeXScalar(p.ix, p.iy, p.iz, p.r, q.ix, q.iy, q.iz, q.r, s.ix, s.iy, s.iz, s.r);
    MulLeftX(p, q, s);
    MulRightX(p, q, s);
  }

  lemma AssociativeY(p: Rotation, q: Rotation, s: Rotation)
    ensures Mul(Mul(p, q), s).iy == Mul(p, Mul(q, s)).iy
  {
    AssociativeYScalar(p.ix, p.iy, p.iz, p.r, q.ix, q.iy, q.iz, q.r, s.ix, s.iy, s.iz, s.r);
    MulLeftY(p, q, s);
    MulRightY(p, q, s);
  }

  lemma AssociativeZ(p: Rotation, q: Rotation, s: Rotation)
    ensures Mul(Mul(p, q), s).iz == Mul(p, Mul(q, s)).iz
  {
    AssociativeZScalar(p.ix, p.iy, p.iz, p.r, q.ix, q.iy, q.iz, q.r, s.ix, s.iy, s.iz, s.r);
    MulLeftZ(p, q, s);
    MulRightZ(p, q, s);
  }

  lemma AssociativeR(p: Rotation, q: Rotation, s: Rotation)
    ensures Mul(Mul(p, q), s).r == Mul(p, Mul(q, s)).r
  {
    AssociativeRScalar(p.ix, p.iy, p.iz, p.r, q.ix, q.iy, q.iz, q.r, s.ix, s.iy, s.iz, s.r);
    MulLeftR(p, q, s);
    MulRightR(p, q, s);
  }

  lemma MulLeftX(p: Rotation, q: Rotation, s: Rotation)
    ensures Mul(Mul(p, q), s).ix
         == (p.r * q.r - p.ix * q.ix - p.iy * q.iy - p.iz * q.iz) * s.ix
          + (p.r * q.ix + p.ix * q.r + p.iy * q.iz - p.iz * q.iy) * s.r
          + (p.r * q.iy - p.ix * q.iz + p.iy * q.r + p.iz * q.ix) * s.iz
          - (p.r * q.iz + p.ix * q.iy - p.iy * q.ix + p.iz * q.r) * s.iy
  {
  }

  lemma MulRightX(p: Rotation, q: Rotation, s: Rotation)
    ensures Mul(p, Mul(q, s)).ix
         == p.r * (q.r * s.ix + q.ix * s.r + q.iy * s.iz - q.iz * s.iy)
          + p.ix * (q.r * s.r - q.ix * s.ix - q.iy * s.iy - q.iz * s.iz)
          + p.iy * (q.r * s.iz + q.ix * s.iy - q.iy * s.ix + q.iz * s.r)
          - p.iz * (q.r * s.iy - q.ix * s.iz + q.iy * s.r + q.iz * s.ix)
  {
  }

  lemma MulLeftY(p: Rotation, q: Rotation, s: Rotation)
    ensures Mul(Mul(p, q), s).iy
         == (p.r * q.r - p.ix * q.ix - p.iy * q.iy - p.iz * q.iz) * s.iy
          - (p.r * q.ix + p.ix * q.r + p.iy * q.iz - p.iz * q.iy) * s.iz
          + (p.r * q.iy - p.ix * q.iz + p.iy * q.r + p.iz * q.ix) * s.r
          + (p.r * q.iz + p.ix * q.iy - p.iy * q.ix + p.iz * q.r) * s.ix
  {
  }

  lemma MulRightY(p: Rotation, q: Rotation, s: Rotation)
    ensures Mul(p, Mul(q, s)).iy
         == p.r * (q.r * s.iy - q.ix * s.iz + q.iy * s.r + q.iz * s.ix)
          - p.ix * (q.r * s.iz + q.ix * s.iy - q.iy * s.ix + q.iz * s.r)
          + p.iy * (q.r * s.r - q.ix * s.ix - q.iy * s.iy - q.iz * s.iz)
          + p.iz * (q.r * s.ix + q.ix * s.r + q.iy * s.iz - q.iz * s.iy)
  {
  }

  lemma MulLeftZ(p: Rotation, q: Rotation, s: Rotation)
    ensures Mul(Mul(p, q), s).iz
         == (p.r * q.r - p.ix * q.ix - p.iy * q.iy - p.iz * q.iz) * s.iz
          + (p.r * q.ix + p.ix * q.r + p.iy * q.iz - p.iz * q.iy) * s.iy
          - (p.r * q.iy - p.ix * q.iz + p.iy * q.r + p.iz * q.ix) * s.ix
          + (p.r * q.iz + p.ix * q.iy - p.iy * q.ix + p.iz * q.r) * s.r
  {
  }

  lemma MulRightZ(p: Rotation, q: Rotation, s: Rotation)
    ensures Mul(p, Mul(q, s)).iz
         == p.r * (q.r * s.iz + q.ix * s.iy - q.iy * s.ix + q.iz * s.r)
          + p.ix * (q.r * s.iy - q.ix * s.iz + q.iy * s.r + q.iz * s.ix)
          - p.iy * (q.r * s.ix + q.ix * s.r + q.iy * s.iz - q.iz * s.iy)
          + p.iz * (q.r * s.r - q.ix * s.ix - q.iy * s.iy - q.iz * s.iz)
  {
  }

  lemma MulLeftR(p: Rotation, q: Rotation, s: Rotation)
    ensures Mul(Mul(p, q), s).r
         == (p.r * q.r - p.ix * q.ix - p.iy * q.iy - p.iz * q.iz) * s.r
          - (p.r * q.ix + p.ix * q.r + p.iy * q.iz - p.iz * q.iy) * s.ix
          - (p.r * q.iy - p.ix * q.iz + p.iy * q.r + p.iz * q.ix) * s.iy
          - (p.r * q.iz + p.ix * q.iy - p.iy * q.ix + p.iz * q.r) * s.iz
  {
  }

  lemma MulRightR(p: Rotation, q: Rotation, s: Rotation)
    ensures Mul(p, Mul(q, s)).r
         == p.r * (q.r * s.r - q.ix * s.ix - q.iy * s.iy - q.iz * s.iz)
          - p.ix * (q.r * s.ix + q.ix * s.r + q.iy * s.iz - q.iz * s.iy)
          - p.iy * (q.r * s.iy - q.ix * s.iz + q.iy * s.r + q.iz * s.ix)
          - p.iz * (q.r * s.iz + q.ix * s.iy - q.iy * s.ix + q.iz * s.r)
  {
  }

  lemma AssociativeXScalar(a1: real, b1: real, c1: real, r1: real,
                           a2: real, b2: real, c2: real, r2: real,
                           a3: real, b3: real, c3: real, r3: real)
    ensures (r1 * r2 - a1 * a2 - b1 * b2 - c1 * c2) * a3
          + (r1 * a2 + a1 * r2 + b1 * c2 - c1 * b2) * r3
          + (r1 * b2 - a1 * c2 + b1 * r2 + c1 * a2) * c3
          - (r1 * c2 + a1 * b2 - b1 * a2 + c1 * r2) * b3
         == r1 * (r2 * a3 + a2 * r3 + b2 * c3 - c2 * b3)
          + a1 * (r2 * r3 - a2 * a3 - b2 * b3 - c2 * c3)
          + b1 * (r2 * c3 + a2 * b3 - b2 * a3 + c2 * r3)
          - c1 * (r2 * b3 - a2 * c3 + b2 * r3 + c2 * a3)
  {
  }

  lemma AssociativeYScalar(a1: real, b1: real, c1: real, r1: real,
                           a2: real, b2: real, c2: real, r2: real,
                           a3: real, b3: real, c3: real, r3: real)
    ensures (r1 * r2 - a1 * a2 - b1 * b2 - c1 * c2) * b3
          - (r1 * a2 + a1 * r2 + b1 * c2 - c1 * b2) * c3
          + (r1 * b2 - a1 * c2 + b1 * r2 + c1 * a2) * r3
          + (r1 * c2 + a1 * b2 - b1 * a2 + c1 * r2) * a3
         == r1 * (r2 * b3 - a2 * c3 + b2 * r3 + c2 * a3)
          - a1 * (r2 * c3 + a2 * b3 - b2 * a3 + c2 * r3)
          + b1 * (r2 * r3 - a2 * a3 - b2 * b3 - c2 * c3)
          + c1 * (r2 * a3 + a2 * r3 + b2 * c3 - c2 * b3)
  {
  }

  lemma AssociativeZScalar(a1: real, b1: real, c1: real, r1: real,
                           a2: real, b2: real, c2: real, r2: real,
                           a3: real, b3: real, c3: real, r3: real)
    ensures (r1 * r2 - a1 * a2 - b1 * b2 - c1 * c2) * c3
          + (r1 * a2 + a1 * r2 + b1 * c2 - c1 * b2) * b3
          - (r1 * b2 - a1 * c2 + b1 * r2 + c1 * a2) * a3
          + (r1 * c2 + a1 * b2 - b1 * a2 + c1 * r2) * r3
         == r1 * (r2 * c3 + a2 * b3 - b2 * a3 + c2 * r3)
          + a1 * (r2 * b3 - a2 * c3 + b2 * r3 + c2 * a3)
          - b1 * (r2 * a3 + a2 * r3 + b2 * c3 - c2 * b3)
          + c1 * (r2 * r3 - a2 * a3 - b2 * b3 - c2 * c3)
  {
  }

  lemma AssociativeRScalar(a1: real, b1: real, c1: real, r1: real,
                           a2: real, b2: real, c2: real, r2: real,
                           a3: real, b3: real, c3: real, r3: real)
    ensures (r1 * r2 - a1 * a2 - b1 * b2 - c1 * c2) * r3
          - (r1 * a2 + a1 * r2 + b1 * c2 - c1 * b2) * a3
          - (r1 * b2 - a1 * c2 + b1 * r2 + c1 * a2) * b3
          - (r1 * c2 + a1 * b2 - b1 * a2 + c1 * r2) * c3
         == r1 * (r2 * r3 - a2 * a3 - b2 * b3 - c2 * c3)
          - a1 * (r2 * a3 + a2 * r3 + b2 * c3 - c2 * b3)
          - b1 * (r2 * b3 - a2 * c3 + b2 * r3 + c2 * a3)
          - c1 * (r2 * c3 + a2 * b3 - b2 * a3 + c2 * r3)
  {
  }
}
