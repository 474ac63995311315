# rebound rotations over the reals

This project models `src/rotations.c` of the rebound N-body code. The file covers:

- three-vector arithmetic (`reb_vec3d_*`);
- quaternion algebra (`reb_rotation_*`);
- applying a rotation quaternion to a vector, a particle and every particle of a simulation;
- the constructor `reb_rotation_init_from_to`, which builds the rotation that takes
  one direction onto another.

Doubles are modelled as `real`. Every operation is an exact polynomial or rational
formula in the components (`reb_rotation_inverse` divides by the squared norm), except
normalisation. A normalising operation takes the square root as a
parameter `sqrt: real -> real` that satisfies `IsSqrt`.

The model has five modules:

- `Vectors` (`vectors.dfy`) holds `reb_vec3d_mul`, `add`, `cross`, `dot`,
  `length_squared` and `normalize`, with their algebraic laws.
- `Quaternions` (`quaternions.dfy`) holds `reb_rotation_imag`, `mul`,
  `length_squared`, `conjugate`, `inverse` and `identity`, with the laws they
  obey (associativity, norm multiplicativity, conjugate of a product, two-sided inverse).
- `RotationFormula` (`rotate.dfy`) is the formula `reb_vec3d_irotate` writes back,
  `v + r t + u x t` with `t = 2 u x v`. It is proved to be the quaternion
  sandwich `q v q*` for a unit `q`. It is proved to preserve lengths, to be undone by
  the inverse, and to compose as the source's comment "v_rot = p * ( q * v)" says.
- `Bodies` (`bodies.dfy`) holds the in-place updates:
  - `reb_vec3d_irotate` on a vector reached through a pointer (class `Vec3Ref`);
  - the copying `reb_vec3d_rotate`;
  - `reb_particle_irotate` on a particle record (class `Particle`);
  - `reb_simulation_irotate`, which loops over the first `N` particles of an array
    (class `Simulation`).
- `FromTo` (`fromto.dfy`) holds `reb_rotation_init_from_to_reduced` and
  `reb_rotation_init_from_to` in their three branches:
  - one stage when the dot product is non-negative;
  - the antipodal fallback about the world axis with the smallest absolute component;
  - the two-stage product through the half-way vector.

  It is proved that the one-stage and two-stage branches give a unit quaternion that
  rotates the direction of `from` onto that of `to`. It is also proved that the two
  factors of the two-stage product are the same quaternion. The antipodal fallback
  as written does not do this in general (see Findings). A corrected fallback is
  defined and proved.

## Model

| member | source | states |
|---|---|---|
| `Vectors.LengthSquared` | src/rotations.c:65-67 | The squared length is never negative, and it is zero exactly for the zero vector. |
| `Vectors.Normalize` | src/rotations.c:69-71 | For a non-zero `v`, the result is a unit vector, and `v` is that vector times the positive length `Dot(r, v)`. |
| `Vectors.NormalizeUnit` | src/rotations.c:69-71 | Normalising a unit vector returns it unchanged. |
| `Vectors.ScaleDot` | src/rotations.c:34-41 | Scaling either argument of a dot product by `s` scales the product by `s`. |
| `Vectors.ScaleLength` | src/rotations.c:34-41 | Scaling by `s` scales the squared length by `s * s`. |
| `Vectors.AddDot` | src/rotations.c:43-50 | The dot product distributes over a sum, on either side. |
| `Vectors.AddLength` | src/rotations.c:43-50 | `‖v + w‖^2 = ‖v‖^2 + 2 v . w + ‖w‖^2`. |
| `Vectors.CrossOrthogonal` | src/rotations.c:52-59 | The cross product is orthogonal to both of its arguments. |
| `Vectors.CrossAntiCommutes` | src/rotations.c:52-59 | Swapping the arguments negates the cross product. |
| `Vectors.CrossSelf` | src/rotations.c:52-59 | A vector crossed with itself is zero. |
| `Vectors.CrossAdd` | src/rotations.c:52-59 | The cross product distributes over a sum in its second argument. |
| `Vectors.CrossAddLeft` | src/rotations.c:52-59 | The cross product distributes over a sum in its first argument. |
| `Vectors.CrossScale` | src/rotations.c:52-59 | Scaling the second argument scales the cross product. |
| `Vectors.CrossScaleLeft` | src/rotations.c:52-59 | Scaling the first argument scales the cross product. |
| `Vectors.Lagrange` | src/rotations.c:52-67 | Lagrange's identity: `‖a x b‖^2 = ‖a‖^2 ‖b‖^2 - (a . b)^2`. |
| `Vectors.DoubleCross` | src/rotations.c:52-63 | `a x (b x c) = (a . c) b - (a . b) c`, component by component. |
| `Quaternions.Pure` | src/rotations.c:75-82 | The pure quaternion of `v` has vector part (`reb_rotation_imag`) `v` and real part 0. |
| `Quaternions.LengthSquared` | src/rotations.c:95-97 | The squared norm is never negative, and it is the real part squared plus the squared length of the vector part. |
| `Quaternions.Conjugate` | src/rotations.c:99-102 | The conjugate keeps the real part, negates the vector part and keeps the squared norm. |
| `Quaternions.ConjugateInvolutive` | src/rotations.c:99-102 | Conjugating twice gives back the quaternion. |
| `Quaternions.MulConjugate` | src/rotations.c:84-102 | `q q*` and `q* q` are both the real quaternion equal to the squared norm of `q`. |
| `Quaternions.MulIdentity` | src/rotations.c:156-159 | The identity is a unit of the product on both sides. |
| `Quaternions.Inverse` | src/rotations.c:104-112 | For a non-zero `q`, the result times `q` is the identity, in both orders. |
| `Quaternions.InverseFactor` | src/rotations.c:104-112 | The conjugate scaled field by field by `1 / ‖q‖^2` is a two-sided inverse. |
| `Quaternions.InverseOfUnit` | src/rotations.c:104-112 | For a unit quaternion the inverse is the conjugate. |
| `Quaternions.ConjugateOfProduct` | src/rotations.c:84-102 | `(p q)* = q* p*`. |
| `Quaternions.MulLength` | src/rotations.c:84-97 | The squared norm of a product is the product of the squared norms (Euler's four-square identity). |
| `Quaternions.MulAssociative` | src/rotations.c:84-93 | The Hamilton product is associative. |
| `RotationFormula.RotatedIdentity` | src/rotations.c:123-131 | Rotating by `reb_rotation_identity` leaves every vector unchanged. |
| `RotationFormula.ExpandedX` | src/rotations.c:123-131 | The x component of the written-back vector is `(1 - 2 ‖u‖^2) v + 2 (u . v) u + 2 r (u x v)`, where `u` is the vector part. |
| `RotationFormula.ExpandedY` | src/rotations.c:123-131 | The same expansion for the y component. |
| `RotationFormula.ExpandedZ` | src/rotations.c:123-131 | The same expansion for the z component. |
| `RotationFormula.SandwichGeneral` | src/rotations.c:123-131 | For any `q`, `q v q*` is the pure quaternion of the rotated vector plus `(‖q‖^2 - 1) v`. |
| `RotationFormula.Sandwich` | src/rotations.c:123-131 | For a unit `q`, the rotated vector is exactly the sandwich `q v q*`. |
| `RotationFormula.RotatedLength` | src/rotations.c:123-131 | A unit quaternion preserves squared length. |
| `RotationFormula.RotatedComposition` | src/rotations.c:84-93 | For unit `p` and `q`, rotating by `mul(p, q)` rotates by `q` first and by `p` second, as the comment at line 85 says. |
| `RotationFormula.RotatedInverse` | src/rotations.c:104-112 | For a unit `q`, rotating by `q` and then by its inverse gives back the vector, in either order. |
| `Bodies.Vec3Ref.IRotate` | src/rotations.c:123-131 | The vector behind the pointer is replaced by its rotation under `q`. |
| `Bodies.Rotate` | src/rotations.c:116-121 | The returned copy is the rotated vector, and its squared length is unchanged when `q` is a unit quaternion; the argument is passed by value and is untouched. |
| `Bodies.Particle.IRotate` | src/rotations.c:133-144 | Position and velocity are each replaced by their rotation under the same `q`, and every other field is unchanged. |
| `Bodies.Simulation.IRotate` | src/rotations.c:146-152 | Every particle at an index in `[0, N)` has its position and velocity rotated and its other fields kept. `N`, the array, and the particles from index `N` on are unchanged. |
| `FromTo.Abs` | src/rotations.c:188 | `fabs` is non-negative and equal to `x` or `-x`. |
| `FromTo.FallbackAxis` | src/rotations.c:189-204 | The fallback axis is one of the three world axes. |
| `FromTo.FallbackAxisSmallest` | src/rotations.c:188-204 | `from` has its smallest absolute component along the chosen axis. The y axis is chosen only when `‖from.x‖ > ‖from.y‖`, and the z axis only when both `‖from.x‖` and `‖from.y‖` exceed `‖from.z‖`. |
| `FromTo.AntipodalFallback` | src/rotations.c:188-204 | The fallback has real part 0, and its vector part is `from x e`, which is orthogonal to `from`. |
| `FromTo.UnitSumNonZero` | src/rotations.c:175-182 | Two unit vectors that are not antiparallel have a non-zero sum, so the half-way vector is defined. |
| `FromTo.AntipodalSum` | src/rotations.c:181-184 | Two vectors sum to zero exactly when one is the negation of the other. |
| `FromTo.HalfDots` | src/rotations.c:161-169 | Let `l` be the length of `f + t`. Then `l > 0` and `l^2 = 2 + 2 f . t`. Also `f . half = half . t > 0`, and each of them times `l` is `1 + f . t`. |
| `FromTo.HalfCrosses` | src/rotations.c:161-169 | Both `f x half` and `half x t`, multiplied by the length of the sum, equal `f x t`. |
| `FromTo.ReducedShape` | src/rotations.c:161-169 | For unit inputs, the reduced rotation has real part `l / 2` and vector part `(f x t) / l`, where `l` is the length of `f + t`. |
| `FromTo.HalfwayRotation` | src/rotations.c:165-167 | The quaternion `(f x h, f . h)` of unit `f` and `h` is a unit quaternion that maps `f` to `2 (f . h) h - f`. |
| `FromTo.ReducedMapsFromTo` | src/rotations.c:161-169 | For unit, non-antiparallel inputs, the reduced rotation is a unit quaternion that rotates `from` onto `to`. |
| `FromTo.TwoStageFactorsEqual` | src/rotations.c:207 | The factors `reduced(from, half)` and `reduced(half, to)` are defined and equal, so the product's argument order does not matter. |
| `FromTo.InitFromToMapsFromTo` | src/rotations.c:171-208 | When the normalised inputs do not sum to zero, the result is a unit quaternion that rotates the direction of `from` onto the direction of `to`. This covers both the one-stage and the two-stage branch. |
| `FromTo.InitFromToTakesFallback` | src/rotations.c:175-184 | On antiparallel inputs the fallback branch is the one taken. |
| `FromTo.InitFromToAntipodal` | src/rotations.c:184-204 | On antiparallel inputs the result is the fallback. It rotates `from` onto `to` exactly when `from` has no component along the fallback axis. |
| `FromTo.FallbackComponentSmall` | src/rotations.c:188-204 | The component `m` of a unit `from` along the fallback axis has `3 m^2 <= 1`. |
| `FromTo.FallbackAsWritten` | src/rotations.c:188-204 | For a unit `from`, the fallback has squared norm `1 - m^2` and maps `from` to `(2 m^2 - 1) from`. |
| `FromTo.CrossRotation` | src/rotations.c:190-193 | For unit `f` and `e`, the pure quaternion `f x e` has squared norm `1 - (f . e)^2` and maps `f` to `(2 (f . e)^2 - 1) f`. |
| `FromTo.RotatedPureOrthogonal` | src/rotations.c:123-131 | A quaternion with real part 0 and vector part `u` orthogonal to `v` maps `v` to `(1 - 2 ‖u‖^2) v`. |
| `FromTo.NegationIff` | src/rotations.c:184-204 | For a non-zero `f`, `(2 m^2 - 1) f` is `-f` exactly when `m = 0`. |
| `FromTo.UnitOppositeFallback` | src/rotations.c:184-204 | For a unit `from` and `to = -from`, the result has squared norm `1 - m^2` and maps `from` to `(2 m^2 - 1) from`. |
| `FromTo.FallbackCounterexample` | src/rotations.c:188-204 | With `from = (1/3, 2/3, 2/3)` and `to = -from`, the result maps `from` to `7/9 to`, which is not `to`. |
| `FromTo.FallbackCounterexampleNorm` | src/rotations.c:188-204 | On the same pair, the result has squared norm `8/9`, so it is not a unit quaternion. |
| `FromTo.FallbackCrossNonZero` | src/rotations.c:188-204 | For a unit `from`, `‖from x e‖^2 >= 2/3`, so the fallback axis is never degenerate. |
| `FromTo.CorrectedFallback` | src/rotations.c:188-204 | The normalised fallback axis gives a unit quaternion with real part 0 and vector part orthogonal to `from`, and it maps `from` to `-from`. |
| `FromTo.InitFromToCorrectedMapsFromTo` | src/rotations.c:171-208 | With the corrected fallback, every pair of non-zero inputs gives a unit quaternion that rotates the direction of `from` onto the direction of `to`. |

In the `states` column, `‖x‖` is the absolute value of a number or the length of a vector.

## Left out

- `reb_rotation_init_angle_axis`, `reb_rotation_init_to_new_axes`,
  `reb_rotation_init_orbital` and `reb_rotation_to_orbital` (src/rotations.c:210-271)
  are not modelled. They are built on `cos`, `sin`, `acos` and `atan2` and on the
  `MIN_INC` tolerance, which cannot be reasoned about over the reals here.
- `sqrt` is a parameter constrained by `IsSqrt`. Nothing is claimed about a
  particular square-root routine.
- Rounding, NaN and infinity are not modelled. Two consequences:
  - Normalising the zero vector and inverting the zero quaternion divide by zero in
    the source. They are excluded by preconditions (`Normalize`, `Inverse`,
    `InitFromToReduced`, `InitFromTo`).
  - The antipodal guard at src/rotations.c:184 tests the length of `half` after it
    has been normalised, which over IEEE doubles is NaN rather than 0 when the sum
    vanishes. `InitFromTo` tests `length_squared(from + to) == 0` before
    normalising, which is the test the comment describes.
- Over doubles the exact-equality test at src/rotations.c:184 never picks the
  fallback: when `from + to` is exactly zero, the normalised `half` is NaN and
  `NaN == 0` is false, so line 207 returns a NaN product. In the model the test,
  moved before normalising, picks the fallback exactly when the sum is zero. No
  tolerance for "nearly opposite" vectors is modelled.
- `struct reb_particle` is represented by position, velocity and six representative
  other fields (acceleration, mass, radius, hash). `struct reb_simulation` is
  represented by the count `N` and the particle array. Other fields of the host
  structures are not part of this model.
- The 32-bit range of `int N` is not modelled; `N` is an unbounded integer. A negative
  `N` makes the loop do nothing, as in the source.
- `RotationFormula.ExpandedX`: the expansion `(1 - 2|u|^2) v + 2 (u . v) u + 2 r (u x v)`
  is stated once per component (with `ExpandedY` and `ExpandedZ`) rather than as one
  vector equation.
- `Vectors.DoubleCross`: stated per component rather than as one vector equation.

## Findings

| source | as written | input that shows it | evidently intended | confidence | as-written member | corrected member |
|---|---|---|---|---|---|---|
| src/rotations.c:188-204 | The defect is latent: over doubles the guard at line 184 sees NaN (see Left out), so no input reaches this branch. Once the guard tests the sum before normalising, as `InitFromTo` does, the antipodal fallback uses `from x e` as the vector part without normalising it. The result has squared norm `1 - m^2` and maps `from` to `(2 m^2 - 1) from`, where `m` is the component of `from` along the chosen axis `e`. It reaches `-from` only when `m = 0`. | `from = (1/3, 2/3, 2/3)`, `to = -from`. With the guard moved before normalising, the result has squared norm `8/9` and maps `from` to `7/9 to`. On doubles, as written, this input returns NaN. | A unit quaternion of angle pi about an axis orthogonal to `from` ("use an angle of pi radians"), which maps `from` to `to = -from`. | not executed | `FromTo.FallbackCounterexample` | `FromTo.InitFromToCorrectedMapsFromTo` |
