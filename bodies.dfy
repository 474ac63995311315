/** The in-place rotations of rotations.c: a vector reached through a pointer, one
    particle's position and velocity, and every particle of a simulation. */
module Bodies {
  import opened Vectors
  import opened Quaternions
  import opened RotationFormula

  /** A `struct reb_vec3d` that is updated through a pointer. */
  class Vec3Ref {
    var x: real
    var y: real
    var z: real

    constructor (v: Vec3)
      ensures Value() == v
    {
      x, y, z := v.x, v.y, v.z;
    }

    function Value(): Vec3
      reads this
    {
      Vec3(x, y, z)
    }

    /** `reb_vec3d_irotate`: overwrites the three components with the rotated vector. */
    method IRotate(q: Rotation)
      modifies this
      ensures Value() == Rotated(old(Value()), q)
    {
      var imag := Imag(q);
      var t := Scale(Cross(imag, Value()), 2.0);
      var res := Add(Value(), Add(Scale(t, q.r), Cross(imag, t)));
      x := res.x;
      y := res.y;
      z := res.z;
    }
  }

  /** `reb_vec3d_rotate`: rotates a copy of `v` in place and returns it; `v` itself is
      passed by value, so the caller's vector is untouched. */
  method Rotate(v: Vec3, q: Rotation) returns (r: Vec3)
    ensures r == Rotated(v, q)
    ensures Quaternions.LengthSquared(q) == 1.0 ==> Vectors.LengthSquared(r) == Vectors.LengthSquared(v)
  {
    var copy := new Vec3Ref(v);
    copy.IRotate(q);
    r := copy.Value();
    if Quaternions.LengthSquared(q) == 1.0 {
      RotatedLength(v, q);
    }
  }

  /** The fields of a `struct reb_particle` that `reb_particle_irotate` does not touch
      (acceleration, mass, radius and hash stand for all of them). */
  datatype ParticleRest = ParticleRest(ax: real, ay: real, az: real, m: real, radius: real, hash: int)

  /** A `struct reb_particle`. */
  class Particle {
    var x: real
    var y: real
    var z: real
    var vx: real
    var vy: real
    var vz: real
    var ax: real
    var ay: real
    var az: real
    var m: real
    var radius: real
    var hash: int

    constructor (pos: Vec3, vel: Vec3, rest: ParticleRest)
      ensures Position() == pos && Velocity() == vel && Rest() == rest
    {
      x, y, z := pos.x, pos.y, pos.z;
      vx, vy, vz := vel.x, vel.y, vel.z;
      ax, ay, az := rest.ax, rest.ay, rest.az;
      m, radius, hash := rest.m, rest.radius, rest.hash;
    }

    function Position(): Vec3
      reads this
    {
      Vec3(x, y, z)
    }

    function Velocity(): Vec3
      reads this
    {
      Vec3(vx, vy, vz)
    }

    function Rest(): ParticleRest
      reads this
    {
      ParticleRest(ax, ay, az, m, radius, hash)
    }

    /** `reb_particle_irotate`: position and velocity are each replaced by their rotation
        under the same `q`; no other field changes. */
    method IRotate(q: Rotation)
      modifies this
      ensures Position() == Rotated(old(Position()), q)
      ensures Velocity() == Rotated(old(Velocity()), q)
      ensures Rest() == old(Rest())
    {
      var pos := new Vec3Ref(Position());
      pos.IRotate(q);
      x := pos.x;
      y := pos.y;
      z := pos.z;
      var vel := new Vec3Ref(Velocity());
      vel.IRotate(q);
      vx := vel.x;
      vy := vel.y;
      vz := vel.z;
    }
  }

  /** The part of a `struct reb_simulation` that `reb_simulation_irotate` uses: the
      particle count `N` and the particle array. */
  class Simulation {
    var N: int
    var particles: array<Particle>

    /** At most `particles.Length` particles are in use, and the array holds distinct
        particles, as an array of structs does. */
    ghost predicate Valid()
      reads this, particles
    {
      && N <= particles.Length
      && forall i, j :: 0 <= i < j < particles.Length ==> particles[i] != particles[j]
    }

    constructor (ps: array<Particle>, n: int)
      requires n <= ps.Length
      requires forall i, j :: 0 <= i < j < ps.Length ==> ps[i] != ps[j]
      ensures Valid() && particles == ps && N == n
    {
      particles, N := ps, n;
    }

    /** The particles `particles[0..N)`, which `reb_simulation_irotate` changes. */
    ghost function Active(): set<Particle>
      reads this, particles
      requires Valid()
    {
      set i | 0 <= i < N :: particles[i]
    }

    /** `reb_simulation_irotate`: rotates particle `i` in place for every `0 <= i < N`.
        `N`, the array and the particles at indices from `N` on are unchanged. */
    method IRotate(q: Rotation)
      requires Valid()
      modifies Active()
      ensures Valid() && N == old(N) && particles == old(particles)
      ensures forall i :: 0 <= i < N ==>
        && particles[i].Position() == Rotated(old(particles[i].Position()), q)
        && particles[i].Velocity() == Rotated(old(particles[i].Velocity()), q)
        && particles[i].Rest() == old(particles[i].Rest())
      ensures forall i :: 0 <= i < particles.Length && !(0 <= i < N) ==>
        unchanged(particles[i])
    {
      var n := N;
      var i := 0;
      while i < n
        invariant 0 <= i <= particles.Length && (0 <= n ==> i <= n)
        invariant forall k :: 0 <= k < i ==>
          && particles[k].Position() == Rotated(old(particles[k].Position()), q)
          && particles[k].Velocity() == Rotated(old(particles[k].Velocity()), q)
          && particles[k].Rest() == old(particles[k].Rest())
        invariant forall k :: i <= k < particles.Length ==> unchanged(particles[k])
      {
        var p := particles[i];
        p.IRotate(q);
        i := i + 1;
      }
    }
  }
}
