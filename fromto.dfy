/** The rotation taking one direction to another: `reb_rotation_init_from_to` and its
    helper `reb_rotation_init_from_to_reduced`. The square root is a parameter. */
module FromTo {
  import opened Vectors
  import opened Quaternions
  import opened RotationFormula

  const XAxis: Vec3 := Vec3(1.0, 0.0, 0.0)
  const YAxis: Vec3 := Vec3(0.0, 1.0, 0.0)
  const ZAxis: Vec3 := Vec3(0.0, 0.0, 1.0)

  /** `fabs`. */
  function Abs(x: real): (a: real)
    ensures a >= 0.0 && (a == x || a == -x)
  {
    if x < 0.0 then -x else x
  }

  /** The world axis along which `f` has its smallest absolute component; ties go to
      the earlier axis (lemma `FallbackAxisSmallest`). */
  function FallbackAxis(f: Vec3): (e: Vec3)
    ensures e == XAxis || e == YAxis || e == ZAxis
  {
    if Abs(f.x) <= Abs(f.y) && Abs(f.x) <= Abs(f.z) then XAxis
    else if Abs(f.y) <= Abs(f.z) then YAxis
    else ZAxis
  }

  /** `f`'s component along the fallback axis is its smallest in absolute value, and a
      later axis is chosen only when an earlier one is strictly larger. */
  lemma FallbackAxisSmallest(f: Vec3)
    ensures var e := FallbackAxis(f);
            && Abs(Dot(f, e)) <= Abs(f.x) && Abs(Dot(f, e)) <= Abs(f.y) && Abs(Dot(f, e)) <= Abs(f.z)
            && (e == YAxis ==> Abs(f.x) > Abs(f.y))
            && (e == ZAxis ==> Abs(f.x) > Abs(f.z) && Abs(f.y) > Abs(f.z))
  {
  }

  /** The antipodal fallback as written: no real part, and the cross product of `f`
      with the fallback axis, which is orthogonal to `f`, as the vector part. */
  function AntipodalFallback(f: Vec3): (q: Rotation)
    ensures q.r == 0.0 && Imag(q) == Cross(f, FallbackAxis(f))
    ensures Dot(Imag(q), f) == 0.0
  {
    var axis := Cross(f, FallbackAxis(f));
    CrossOrthogonal(f, FallbackAxis(f));
    Rotation(axis.x, axis.y, axis.z, 0.0)
  }

  /** `reb_rotation_init_from_to_reduced`: with `half` the normalised sum of the two
      vectors, the vector part is `from x half` and the real part `from . half`. The
      source divides by zero when the sum vanishes; callers must not pass that case. */
  function InitFromToReduced(from: Vec3, to: Vec3, sqrt: real -> real): Rotation
    requires IsSqrt(sqrt) && Add(from, to) != Zero
  {
    var half := Normalize(Add(from, to), sqrt);
    var cross := Cross(from, half);
    var dot := Dot(from, half);
    Rotation(cross.x, cross.y, cross.z, dot)
  }

  /** `reb_rotation_init_from_to`. Both vectors are normalised first; a non-negative dot
      product takes the one-stage rotation, antiparallel vectors take the fallback, and
      everything else is composed from the rotations `from -> half` and `half -> to`.
      The antipodal guard is the source's length test, placed BEFORE normalising the
      sum: over the reals the zero sum has no normalisation to test. */
  function InitFromTo(from: Vec3, to: Vec3, sqrt: real -> real): Rotation
    requires IsSqrt(sqrt) && from != Zero && to != Zero
  {
    var f := Normalize(from, sqrt);
    var t := Normalize(to, sqrt);
    if Dot(f, t) >= 0.0 then
      UnitSumNonZero(f, t);
      InitFromToReduced(f, t, sqrt)
    else if Vectors.LengthSquared(Add(f, t)) == 0.0 then
      AntipodalFallback(f)
    else
      var half := Normalize(Add(f, t), sqrt);
      TwoStageFactorsEqual(f, t, sqrt);
      Mul(InitFromToReduced(f, half, sqrt), InitFromToReduced(half, t, sqrt))
  }

  /** Two unit vectors that are not antiparallel have a non-zero sum. */
  lemma UnitSumNonZero(f: Vec3, t: Vec3)
    requires Vectors.LengthSquared(f) == 1.0 && Vectors.LengthSquared(t) == 1.0
    requires Dot(f, t) > -1.0
    ensures Add(f, t) != Zero
  {
    AddLength(f, t);
  }

  /** Two vectors sum to zero exactly when one is the negation of the other. */
  lemma AntipodalSum(f: Vec3, t: Vec3)
    ensures Add(f, t) == Zero <==> t == Scale(f, -1.0)
  {
  }

  /** What the normalised sum `half` of two unit vectors satisfies, with `l` the length
      of the sum. */
  lemma HalfDots(f: Vec3, t: Vec3, sqrt: real -> real, h: Vec3, l: real)
    requires IsSqrt(sqrt) && Vectors.LengthSquared(f) == 1.0 && Vectors.LengthSquared(t) == 1.0
    requires Add(f, t) != Zero
    requires h == Normalize(Add(f, t), sqrt) && l == Dot(h, Add(f, t))
    ensures l > 0.0 && l * l == 2.0 + 2.0 * Dot(f, t)
    ensures Dot(f, h) * l == 1.0 + Dot(f, t) && Dot(h, t) * l == 1.0 + Dot(f, t)
    ensures Dot(f, h) == Dot(h, t) && Dot(f, h) > 0.0
  {
    HalfLength(f, t, h, l);
    HalfDot(f, f, t, h, l);
    HalfDot(t, f, t, h, l);
    assert Dot(f, f) == 1.0 && Dot(t, t) == 1.0 && Dot(t, f) == Dot(f, t);
    HalfScalar(Dot(f, h), Dot(h, t), Dot(f, t), l);
  }

  lemma HalfScalar(a: real, b: real, d: real, l: real)
    requires l > 0.0 && l * l == 2.0 + 2.0 * d
    requires a * l == 1.0 + d && b * l == 1.0 + d
    ensures a == b && a > 0.0
  {
    Cancel(l, a, b);
    SquarePositive(l, l * l);
    PositiveFactor(a, l);
  }

  /** The squared length of the sum of two unit vectors, written as `h * l`. */
  lemma HalfLength(f: Vec3, t: Vec3, h: Vec3, l: real)
    requires Vectors.LengthSquared(f) == 1.0 && Vectors.LengthSquared(t) == 1.0
    requires Vectors.LengthSquared(h) == 1.0 && Scale(h, l) == Add(f, t)
    ensures l * l == 2.0 + 2.0 * Dot(f, t)
  {
    ScaleLength(h, l);
    AddLength(f, t);
  }

  /** The dot product of `v` with the sum `f + t`, written as `h * l`. */
  lemma HalfDot(v: Vec3, f: Vec3, t: Vec3, h: Vec3, l: real)
    requires Scale(h, l) == Add(f, t)
    ensures Dot(v, h) * l == Dot(v, f) + Dot(v, t)
    ensures Dot(h, v) * l == Dot(v, f) + Dot(v, t)
  {
    ScaleDot(h, v, l);
    AddDot(f, t, v);
  }

  /** The cross products with the normalised sum `half` of two vectors, times the
      length `l` of the sum, are the cross product of the two vectors. */
  lemma HalfCrosses(f: Vec3, t: Vec3, sqrt: real -> real)
    requires IsSqrt(sqrt) && Add(f, t) != Zero
    ensures var s := Add(f, t);
            var h := Normalize(s, sqrt);
            var l := Dot(h, s);
            Scale(Cross(f, h), l) == Cross(f, t) && Scale(Cross(h, t), l) == Cross(f, t)
  {
    var s := Add(f, t);
    var h := Normalize(s, sqrt);
    var l := Dot(h, s);
    CrossScale(f, h, l);
    CrossAdd(f, f, t);
    CrossSelf(f);
    CrossScaleLeft(t, h, l);
    CrossAddLeft(t, f, t);
    CrossSelf(t);
  }

  /** `InitFromToReduced` of two unit vectors in closed form: with `l` the length of
      their sum, the real part is `l / 2` and the vector part is their cross product
      divided by `l`. */
  lemma ReducedShape(a: Vec3, b: Vec3, sqrt: real -> real)
    requires IsSqrt(sqrt) && Vectors.LengthSquared(a) == 1.0 && Vectors.LengthSquared(b) == 1.0
    requires Add(a, b) != Zero
    ensures var q := InitFromToReduced(a, b, sqrt);
            var l := Dot(Normalize(Add(a, b), sqrt), Add(a, b));
            && l > 0.0 && l * l == 2.0 + 2.0 * Dot(a, b)
            && 2.0 * q.r == l && Scale(Imag(q), l) == Cross(a, b)
  {
    var s := Add(a, b);
    var h := Normalize(s, sqrt);
    var l := Dot(h, s);
    var q := InitFromToReduced(a, b, sqrt);
    HalfDots(a, b, sqrt, h, l);
    HalfCrosses(a, b, sqrt);
    assert q.r * l == (l / 2.0) * l;
    Cancel(l, q.r, l / 2.0);
    assert Imag(q) == Cross(a, h);
  }

  /** `InitFromToReduced` of two unit vectors that are not antiparallel is a unit
      quaternion that rotates `from` onto `to`. */
  lemma ReducedMapsFromTo(f: Vec3, t: Vec3, sqrt: real -> real)
    requires IsSqrt(sqrt) && Vectors.LengthSquared(f) == 1.0 && Vectors.LengthSquared(t) == 1.0
    requires Add(f, t) != Zero
    ensures var q := InitFromToReduced(f, t, sqrt);
            Quaternions.LengthSquared(q) == 1.0 && Rotated(f, q) == t
  {
    var s := Add(f, t);
    var h := Normalize(s, sqrt);
    var l := Dot(h, s);
    var q := InitFromToReduced(f, t, sqrt);
    assert q == Rotation(Cross(f, h).x, Cross(f, h).y, Cross(f, h).z, Dot(f, h));
    ReducedShape(f, t, sqrt);
    HalfwayRotation(f, h, q);
    var w := Rotated(f, q);
    assert Scale(h, l) == s;
    var r := q.r;
    HalfwayComponent(f.x, h.x, t.x, r, l, w.x);
    HalfwayComponent(f.y, h.y, t.y, r, l, w.y);
    HalfwayComponent(f.z, h.z, t.z, r, l, w.z);
  }

  lemma HalfwayComponent(fx: real, hx: real, tx: real, r: real, l: real, wx: real)
    requires 2.0 * r == l && l * hx == fx + tx && wx == (2.0 * r) * hx + -1.0 * fx
    ensures wx == tx
  {
  }

  /** The quaternion `q` with vector part `f x h` and real part `f . h`, for unit `f`
      and `h`, is a unit quaternion that maps `f` to `2 (f . h) h - f`. */
  lemma HalfwayRotation(f: Vec3, h: Vec3, q: Rotation)
    requires Vectors.LengthSquared(f) == 1.0 && Vectors.LengthSquared(h) == 1.0
    requires Imag(q) == Cross(f, h) && q.r == Dot(f, h)
    ensures Quaternions.LengthSquared(q) == 1.0
    ensures Rotated(f, q).x == (2.0 * q.r) * h.x + -1.0 * f.x
    ensures Rotated(f, q).y == (2.0 * q.r) * h.y + -1.0 * f.y
    ensures Rotated(f, q).z == (2.0 * q.r) * h.z + -1.0 * f.z
  {
    HalfwayFacts(f, h, q, Vectors.LengthSquared(Imag(q)));
    HalfwayX(f, h, q);
    HalfwayY(f, h, q);
    HalfwayZ(f, h, q);
  }

  lemma HalfwayX(f: Vec3, h: Vec3, q: Rotation)
    requires Vectors.LengthSquared(f) == 1.0 && Vectors.LengthSquared(h) == 1.0
    requires Imag(q) == Cross(f, h) && q.r == Dot(f, h)
    ensures Rotated(f, q).x == (2.0 * q.r) * h.x + -1.0 * f.x
  {
    var u := Imag(q);
    var n := Vectors.LengthSquared(u);
    HalfwayFacts(f, h, q, n);
    ExpandedX(f, q);
    HalfwayExpanded(f.x, h.x, Cross(u, f).x, q.ix, n, Dot(u, f), q.r, Rotated(f, q).x);
  }

  lemma HalfwayY(f: Vec3, h: Vec3, q: Rotation)
    requires Vectors.LengthSquared(f) == 1.0 && Vectors.LengthSquared(h) == 1.0
    requires Imag(q) == Cross(f, h) && q.r == Dot(f, h)
    ensures Rotated(f, q).y == (2.0 * q.r) * h.y + -1.0 * f.y
  {
    var u := Imag(q);
    var n := Vectors.LengthSquared(u);
    HalfwayFacts(f, h, q, n);
    ExpandedY(f, q);
    HalfwayExpanded(f.y, h.y, Cross(u, f).y, q.iy, n, Dot(u, f), q.r, Rotated(f, q).y);
  }

  lemma HalfwayZ(f: Vec3, h: Vec3, q: Rotation)
    requires Vectors.LengthSquared(f) == 1.0 && Vectors.LengthSquared(h) == 1.0
    requires Imag(q) == Cross(f, h) && q.r == Dot(f, h)
    ensures Rotated(f, q).z == (2.0 * q.r) * h.z + -1.0 * f.z
  {
    var u := Imag(q);
    var n := Vectors.LengthSquared(u);
    HalfwayFacts(f, h, q, n);
    ExpandedZ(f, q);
    HalfwayExpanded(f.z, h.z, Cross(u, f).z, q.iz, n, Dot(u, f), q.r, Rotated(f, q).z);
  }

  /** The scalar facts behind `HalfwayRotation`, with `n` the squared length of the
      vector part. */
  lemma HalfwayFacts(f: Vec3, h: Vec3, q: Rotation, n: real)
    requires Vectors.LengthSquared(f) == 1.0 && Vectors.LengthSquared(h) == 1.0
    requires Imag(q) == Cross(f, h) && q.r == Dot(f, h)
    requires n == Vectors.LengthSquared(Imag(q))
    ensures n == 1.0 - q.r * q.r && Quaternions.LengthSquared(q) == 1.0
    ensures Dot(Imag(q), f) == 0.0
    ensures Cross(Imag(q), f).x == h.x - q.r * f.x
    ensures Cross(Imag(q), f).y == h.y - q.r * f.y
    ensures Cross(Imag(q), f).z == h.z - q.r * f.z
  {
    HalfwayNorm(f, h, q, n);
    CrossOrthogonal(f, h);
    HalfwayCross(f, h);
  }

  lemma HalfwayNorm(f: Vec3, h: Vec3, q: Rotation, n: real)
    requires Vectors.LengthSquared(f) == 1.0 && Vectors.LengthSquared(h) == 1.0
    requires Imag(q) == Cross(f, h) && q.r == Dot(f, h)
    requires n == Vectors.LengthSquared(Imag(q))
    ensures n == 1.0 - q.r * q.r && Quaternions.LengthSquared(q) == 1.0
  {
    UnitCrossLength(f, h);
  }

  lemma HalfwayExpanded(fx: real, hx: real, cx: real, ux: real, n: real, d: real, r: real, wx: real)
    requires n == 1.0 - r * r && d == 0.0 && cx == hx - r * fx
    requires wx == (1.0 - 2.0 * n) * fx + (2.0 * d) * ux + (2.0 * r) * cx
    ensures wx == (2.0 * r) * hx + -1.0 * fx
  {
  }

  /** For unit `f`: `(f x h) x f == h - (f . h) f`. */
  lemma HalfwayCross(f: Vec3, h: Vec3)
    requires Vectors.LengthSquared(f) == 1.0
    ensures var c := Cross(Cross(f, h), f);
            var r := Dot(f, h);
            c.x == h.x - r * f.x && c.y == h.y - r * f.y && c.z == h.z - r * f.z
  {
    var u := Cross(f, h);
    CrossAntiCommutes(f, u);
    DoubleCross(f, f, h);
    assert Dot(f, f) == 1.0;
  }

  /** The two stages at the end of `reb_rotation_init_from_to` are the SAME quaternion:
      `from -> half` and `half -> to` turn by the same angle about the same axis. So the
      argument order of the product, which applies `half -> to` first, is immaterial. */
  lemma TwoStageFactorsEqual(f: Vec3, t: Vec3, sqrt: real -> real)
    requires IsSqrt(sqrt) && Vectors.LengthSquared(f) == 1.0 && Vectors.LengthSquared(t) == 1.0
    requires Add(f, t) != Zero
    ensures var h := Normalize(Add(f, t), sqrt);
            && Add(f, h) != Zero && Add(h, t) != Zero
            && InitFromToReduced(f, h, sqrt) == InitFromToReduced(h, t, sqrt)
  {
    var s := Add(f, t);
    var h := Normalize(s, sqrt);
    var l := Dot(h, s);
    HalfDots(f, t, sqrt, h, l);
    HalfCrosses(f, t, sqrt);
    UnitSumNonZero(f, h);
    UnitSumNonZero(h, t);
    ScaleCancel(Cross(f, h), Cross(h, t), l);
    var q1, q2 := InitFromToReduced(f, h, sqrt), InitFromToReduced(h, t, sqrt);
    ReducedShape(f, h, sqrt);
    ReducedShape(h, t, sqrt);
    var l1 := Dot(Normalize(Add(f, h), sqrt), Add(f, h));
    var l2 := Dot(Normalize(Add(h, t), sqrt), Add(h, t));
    PositiveRootUnique(l1, l2);
    ScaleCancel(Imag(q1), Imag(q2), l1);
    assert q1.r == q2.r;
  }

  /** Outside the antipodal case `reb_rotation_init_from_to` yields a unit quaternion
      that rotates the direction of `from` onto the direction of `to`, in both the
      one-stage and the two-stage branch. */
  lemma InitFromToMapsFromTo(from: Vec3, to: Vec3, sqrt: real -> real)
    requires IsSqrt(sqrt) && from != Zero && to != Zero
    requires Add(Normalize(from, sqrt), Normalize(to, sqrt)) != Zero
    ensures var q := InitFromTo(from, to, sqrt);
            && Quaternions.LengthSquared(q) == 1.0
            && Rotated(Normalize(from, sqrt), q) == Normalize(to, sqrt)
  {
    var f := Normalize(from, sqrt);
    var t := Normalize(to, sqrt);
    var q := InitFromTo(from, to, sqrt);
    if Dot(f, t) >= 0.0 {
      ReducedMapsFromTo(f, t, sqrt);
    } else {
      assert Vectors.LengthSquared(Add(f, t)) != 0.0;
      var h := Normalize(Add(f, t), sqrt);
      TwoStageFactorsEqual(f, t, sqrt);
      var q1 := InitFromToReduced(f, h, sqrt);
      assert q == Mul(q1, q1);
      ReducedMapsFromTo(f, h, sqrt);
      ReducedMapsFromTo(h, t, sqrt);
      MulLength(q1, q1);
      RotatedComposition(f, q1, q1);
    }
  }

  /** The smallest absolute component `m` of a unit vector has `3 m^2 <= 1`. */
  lemma FallbackComponentSmall(f: Vec3, m: real)
    requires Vectors.LengthSquared(f) == 1.0 && m == Dot(f, FallbackAxis(f))
    ensures 3.0 * (m * m) <= 1.0
  {
    FallbackAxisSmallest(f);
    AbsSquareMonotone(m, f.x);
    AbsSquareMonotone(m, f.y);
    AbsSquareMonotone(m, f.z);
  }

  lemma AbsSquareMonotone(m: real, a: real)
    requires Abs(m) <= Abs(a)
    ensures m * m <= a * a
  {
    var (p, q) := (Abs(m), Abs(a));
    assert p * p == m * m && q * q == a * a;
    assert p * p <= p * q;
    assert p * q <= q * q;
  }

  /** The antipodal fallback as written, for a unit `f`, with `m` the component of `f`
      along the fallback axis: its squared norm is `1 - m^2` and it maps `f` to
      `(2 m^2 - 1) f`, which is `-f` only when `m == 0`. */
  lemma FallbackAsWritten(f: Vec3, q: Rotation, m: real)
    requires Vectors.LengthSquared(f) == 1.0
    requires q == AntipodalFallback(f) && m == Dot(f, FallbackAxis(f))
    ensures Quaternions.LengthSquared(q) == 1.0 - m * m
    ensures Rotated(f, q) == Scale(f, 2.0 * (m * m) - 1.0)
  {
    var e := FallbackAxis(f);
    AxisUnit(e);
    CrossRotation(f, e, q, m);
  }

  /** For unit `f` and `e`, the pure quaternion `f x e` has squared norm
      `1 - (f . e)^2` and maps `f` to `(2 (f . e)^2 - 1) f`. */
  lemma CrossRotation(f: Vec3, e: Vec3, q: Rotation, m: real)
    requires Vectors.LengthSquared(f) == 1.0 && Vectors.LengthSquared(e) == 1.0
    requires q.r == 0.0 && Imag(q) == Cross(f, e) && m == Dot(f, e)
    ensures Quaternions.LengthSquared(q) == 1.0 - m * m
    ensures Rotated(f, q) == Scale(f, 2.0 * (m * m) - 1.0)
  {
    UnitCrossLength(f, e);
    CrossOrthogonal(f, e);
    RotatedPureOrthogonal(f, q);
  }

  /** For unit `f` and `e`, `f x e` has squared length `1 - (f . e)^2`. */
  lemma UnitCrossLength(f: Vec3, e: Vec3)
    requires Vectors.LengthSquared(f) == 1.0 && Vectors.LengthSquared(e) == 1.0
    ensures Vectors.LengthSquared(Cross(f, e)) == 1.0 - Dot(f, e) * Dot(f, e)
  {
    Lagrange(f, e);
    var (a, b) := (Vectors.LengthSquared(f), Vectors.LengthSquared(e));
    assert a * b == 1.0;
  }

  lemma AxisUnit(e: Vec3)
    requires e == XAxis || e == YAxis || e == ZAxis
    ensures Vectors.LengthSquared(e) == 1.0
  {
  }

  /** A quaternion with no real part whose vector part `u` is orthogonal to `v` maps
      `v` to `(1 - 2 |u|^2) v`. */
  lemma RotatedPureOrthogonal(v: Vec3, q: Rotation)
    requires q.r == 0.0 && Dot(Imag(q), v) == 0.0
    ensures Rotated(v, q) == Scale(v, 1.0 - 2.0 * Vectors.LengthSquared(Imag(q)))
  {
    var u := Imag(q);
    var k := 1.0 - 2.0 * Vectors.LengthSquared(u);
    ExpandedX(v, q);
    ExpandedY(v, q);
    ExpandedZ(v, q);
  }

  /** A non-zero vector determines its scale factor. */
  lemma ScaleFactorCancel(v: Vec3, a: real, b: real)
    requires v != Zero && Scale(v, a) == Scale(v, b)
    ensures a == b
  {
    if v.x != 0.0 {
      Cancel(v.x, a, b);
    } else if v.y != 0.0 {
      Cancel(v.y, a, b);
    } else {
      Cancel(v.z, a, b);
    }
  }

  /** On antiparallel inputs `reb_rotation_init_from_to` returns the fallback, and
      that rotates the direction of `from` onto the direction of `to` exactly when
      `from` has no component along the fallback axis. */
  lemma InitFromToAntipodal(from: Vec3, to: Vec3, sqrt: real -> real)
    requires IsSqrt(sqrt) && from != Zero && to != Zero
    requires Add(Normalize(from, sqrt), Normalize(to, sqrt)) == Zero
    ensures InitFromTo(from, to, sqrt) == AntipodalFallback(Normalize(from, sqrt))
    ensures Rotated(Normalize(from, sqrt), InitFromTo(from, to, sqrt)) == Normalize(to, sqrt)
        <==> Dot(Normalize(from, sqrt), FallbackAxis(Normalize(from, sqrt))) == 0.0
  {
    var f := Normalize(from, sqrt);
    var t := Normalize(to, sqrt);
    InitFromToTakesFallback(from, to, sqrt);
    var q := InitFromTo(from, to, sqrt);
    var m := Dot(f, FallbackAxis(f));
    FallbackAsWritten(f, q, m);
    AntipodalSum(f, t);
    NegationIff(f, t, m);
  }

  /** On antiparallel inputs the dot product is negative and the sum is zero, so the
      fallback branch is taken. */
  lemma InitFromToTakesFallback(from: Vec3, to: Vec3, sqrt: real -> real)
    requires IsSqrt(sqrt) && from != Zero && to != Zero
    requires Add(Normalize(from, sqrt), Normalize(to, sqrt)) == Zero
    ensures InitFromTo(from, to, sqrt) == AntipodalFallback(Normalize(from, sqrt))
  {
    var f := Normalize(from, sqrt);
    var t := Normalize(to, sqrt);
    AntipodalSum(f, t);
    ScaleDot(f, f, -1.0);
    assert Dot(f, t) == -1.0;
  }

  /** `(2 m^2 - 1) f` is `-f`, for a non-zero `f`, exactly when `m == 0`. */
  lemma NegationIff(f: Vec3, t: Vec3, m: real)
    requires f != Zero && t == Scale(f, -1.0)
    ensures Scale(f, 2.0 * (m * m) - 1.0) == t <==> m == 0.0
  {
    if Scale(f, 2.0 * (m * m) - 1.0) == t {
      ScaleFactorCancel(f, 2.0 * (m * m) - 1.0, -1.0);
      if m != 0.0 {
        SquarePositive(m, m * m);
      }
    }
  }

  /** The unit vector `(1/3, 2/3, 2/3)` and its negation. */
  const Skewed: Vec3 := Vec3(1.0 / 3.0, 2.0 / 3.0, 2.0 / 3.0)
  const SkewedOpposite: Vec3 := Vec3(-1.0 / 3.0, -2.0 / 3.0, -2.0 / 3.0)

  lemma SkewedAxis()
    ensures Vectors.LengthSquared(Skewed) == 1.0 && SkewedOpposite == Scale(Skewed, -1.0)
    ensures 1.0 / 3.0 == Dot(Skewed, FallbackAxis(Skewed))
    ensures Skewed != Zero && SkewedOpposite != Zero
  {
    assert FallbackAxis(Skewed) == XAxis;
  }

  /** A concrete antiparallel pair on which the fallback as written is not a rotation
      onto `to`: it carries the unit vector `Skewed` to `7/9` of its negation
      `SkewedOpposite` (both are unit vectors, so each is its own normalisation:
      `NormalizeUnit`). */
  lemma FallbackCounterexample(from: Vec3, to: Vec3, q: Rotation, sqrt: real -> real)
    requires IsSqrt(sqrt) && from == Skewed && to == SkewedOpposite
    requires q == InitFromTo(from, to, sqrt)
    ensures Rotated(from, q) == Scale(to, 7.0 / 9.0)
    ensures Rotated(from, q) != to
  {
    SkewedAxis();
    UnitOppositeFallback(from, to, q, 1.0 / 3.0, sqrt);
  }

  /** On the same pair the result is not a unit quaternion: its squared norm is `8/9`. */
  lemma FallbackCounterexampleNorm(from: Vec3, to: Vec3, q: Rotation, sqrt: real -> real)
    requires IsSqrt(sqrt) && from == Skewed && to == SkewedOpposite
    requires q == InitFromTo(from, to, sqrt)
    ensures Quaternions.LengthSquared(q) == 8.0 / 9.0
  {
    SkewedAxis();
    UnitOppositeFallback(from, to, q, 1.0 / 3.0, sqrt);
  }

  /** What the fallback as written does for a unit `from` and `to == -from`, with `m`
      the component of `from` along the fallback axis. */
  lemma UnitOppositeFallback(from: Vec3, to: Vec3, q: Rotation, m: real, sqrt: real -> real)
    requires IsSqrt(sqrt) && Vectors.LengthSquared(from) == 1.0 && to == Scale(from, -1.0)
    requires m == Dot(from, FallbackAxis(from))
    requires from != Zero && to != Zero && q == InitFromTo(from, to, sqrt)
    ensures Quaternions.LengthSquared(q) == 1.0 - m * m
    ensures Rotated(from, q) == Scale(from, 2.0 * (m * m) - 1.0)
  {
    UnitOppositeTakesFallback(from, to, sqrt);
    FallbackAsWritten(from, q, m);
  }

  /** For a unit `from` and `to == -from` the fallback branch is taken. */
  lemma UnitOppositeTakesFallback(from: Vec3, to: Vec3, sqrt: real -> real)
    requires IsSqrt(sqrt) && Vectors.LengthSquared(from) == 1.0 && to == Scale(from, -1.0)
    ensures from != Zero && to != Zero
    ensures InitFromTo(from, to, sqrt) == AntipodalFallback(from)
  {
    NormalizeUnit(from, sqrt);
    ScaleLength(from, -1.0);
    NormalizeUnit(to, sqrt);
    InitFromToTakesFallback(from, to, sqrt);
  }

  /** The fallback axis is never parallel to a unit `f`: `|f x e|^2 >= 2/3`. */
  lemma FallbackCrossNonZero(f: Vec3)
    requires Vectors.LengthSquared(f) == 1.0
    ensures Vectors.LengthSquared(Cross(f, FallbackAxis(f))) >= 2.0 / 3.0
    ensures Cross(f, FallbackAxis(f)) != Zero
  {
    var e := FallbackAxis(f);
    var m := Dot(f, e);
    AxisUnit(e);
    FallbackComponentSmall(f, m);
    CrossBound(f, e, m);
  }

  lemma CrossBound(f: Vec3, e: Vec3, m: real)
    requires Vectors.LengthSquared(f) == 1.0 && Vectors.LengthSquared(e) == 1.0
    requires m == Dot(f, e) && 3.0 * (m * m) <= 1.0
    ensures Vectors.LengthSquared(Cross(f, e)) >= 2.0 / 3.0
    ensures Cross(f, e) != Zero
  {
    UnitCrossLength(f, e);
    var n := Vectors.LengthSquared(Cross(f, e));
    assert n == 1.0 - m * m;
    assert n >= 2.0 / 3.0;
  }

  /** The corrected antipodal fallback: the same axis `f x e`, normalised, with no real
      part, so that the result is a unit quaternion of angle pi about an axis orthogonal
      to `f`, turning `f` into `-f`. */
  function CorrectedFallback(f: Vec3, sqrt: real -> real): (q: Rotation)
    requires IsSqrt(sqrt) && Vectors.LengthSquared(f) == 1.0
    ensures q.r == 0.0 && Dot(f, Imag(q)) == 0.0
    ensures Quaternions.LengthSquared(q) == 1.0
    ensures Rotated(f, q) == Scale(f, -1.0)
  {
    var c := Cross(f, FallbackAxis(f));
    FallbackCrossNonZero(f);
    CrossOrthogonal(f, FallbackAxis(f));
    var axis := Normalize(c, sqrt);
    var q := Rotation(axis.x, axis.y, axis.z, 0.0);
    HalfTurn(f, c, q, sqrt);
    q
  }

  /** A pure quaternion whose vector part is the normalisation of a non-zero `c`
      orthogonal to the unit `f` is a unit quaternion that turns `f` into `-f`. */
  lemma HalfTurn(f: Vec3, c: Vec3, q: Rotation, sqrt: real -> real)
    requires IsSqrt(sqrt) && Vectors.LengthSquared(f) == 1.0
    requires c != Zero && Dot(f, c) == 0.0
    requires q.r == 0.0 && Imag(q) == Normalize(c, sqrt)
    ensures Dot(f, Imag(q)) == 0.0
    ensures Quaternions.LengthSquared(q) == 1.0
    ensures Rotated(f, q) == Scale(f, -1.0)
  {
    var u := Imag(q);
    var d := Dot(u, c);
    ScaleDot(u, f, d);
    assert Dot(u, f) * d == 0.0 * d;
    Cancel(d, Dot(u, f), 0.0);
    RotatedPureOrthogonal(f, q);
  }

  /** `reb_rotation_init_from_to` with the corrected fallback on antiparallel inputs. */
  function InitFromToCorrected(from: Vec3, to: Vec3, sqrt: real -> real): Rotation
    requires IsSqrt(sqrt) && from != Zero && to != Zero
  {
    var f := Normalize(from, sqrt);
    if Add(f, Normalize(to, sqrt)) == Zero then CorrectedFallback(f, sqrt)
    else InitFromTo(from, to, sqrt)
  }

  /** For every pair of non-zero vectors the corrected construction is a unit
      quaternion that rotates the direction of `from` onto the direction of `to`. */
  lemma InitFromToCorrectedMapsFromTo(from: Vec3, to: Vec3, sqrt: real -> real)
    requires IsSqrt(sqrt) && from != Zero && to != Zero
    ensures var q := InitFromToCorrected(from, to, sqrt);
            && Quaternions.LengthSquared(q) == 1.0
            && Rotated(Normalize(from, sqrt), q) == Normalize(to, sqrt)
  {
    var f := Normalize(from, sqrt);
    var t := Normalize(to, sqrt);
    if Add(f, t) == Zero {
      AntipodalSum(f, t);
    } else {
      InitFromToMapsFromTo(from, to, sqrt);
    }
  }
}
