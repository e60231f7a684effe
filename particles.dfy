/** Particles of the Barnes-Hut simulation: the mutable `Particle` object, its value snapshot
    `Body`, and sums of mass, moment and momentum over sequences of bodies. */
module Particles {
  import opened Numerics
  import opened Kinematics

  /** What a particle is between two ticks: position, velocity, mass and radius. The
      acceleration buffer is excluded; it is zero between ticks. */
  datatype Body = Body(x: real, y: real, vx: real, vy: real, mass: real, radius: int32)

  class Particle {
    var x: real
    var y: real
    var vx: real
    var vy: real
    var ax: real
    var ay: real
    var mass: real
    var radius: int32

    /** A particle at rest whose mass is `radius * radius * 0.1`, the product taken in Java
        `int` arithmetic. */
    constructor (x: real, y: real, radius: int32)
      ensures this.x == x && this.y == y && this.radius == radius
      ensures mass == Wrap32(radius * radius) as real * 0.1
      ensures vx == 0.0 && vy == 0.0 && ax == 0.0 && ay == 0.0
    {
      this.x := x;
      this.y := y;
      this.radius := radius;
      this.mass := Wrap32(radius * radius) as real * 0.1;
      this.vx := 0.0;
      this.vy := 0.0;
      this.ax := 0.0;
      this.ay := 0.0;
    }

    /** A particle with the given state and an empty acceleration buffer. */
    constructor Full(x: real, y: real, radius: int32, mass: real, vx: real, vy: real)
      ensures Snap() == Body(x, y, vx, vy, mass, radius)
      ensures ax == 0.0 && ay == 0.0
    {
      this.x := x;
      this.y := y;
      this.radius := radius;
      this.mass := mass;
      this.vx := vx;
      this.vy := vy;
      this.ax := 0.0;
      this.ay := 0.0;
    }

    function Snap(): Body
      reads this`x, this`y, this`vx, this`vy, this`mass, this`radius
    {
      Body(x, y, vx, vy, mass, radius)
    }

    function State(): Motion
      reads this`x, this`y, this`vx, this`vy
    {
      Motion(x, y, vx, vy)
    }

    /** One semi-implicit Euler step with the accumulated acceleration, which is then reset. */
    method Update(dt: real)
      modifies this`x, this`y, this`vx, this`vy, this`ax, this`ay
      ensures State() == EulerStep(old(State()), old(ax), old(ay), dt)
      ensures ax == 0.0 && ay == 0.0
    {
      vx := vx + ax * dt;
      vy := vy + ay * dt;
      x := x + vx * dt;
      y := y + vy * dt;
      ax := 0.0;
      ay := 0.0;
    }

    /** Adds the acceleration the force `(fx, fy)` gives this particle. */
    method ApplyForce(fx: real, fy: real)
      requires mass != 0.0
      modifies this`ax, this`ay
      ensures ax == Accelerated(old(ax), fx, mass) && ay == Accelerated(old(ay), fy, mass)
    {
      ax := ax + fx / mass;
      ay := ay + fy / mass;
    }

    /** Moves the particle to `(x, y)` with velocity `(vx, vy)`, as a caller assigning the four
        fields does; mass, radius and the acceleration buffer stay. */
    method Place(x: real, y: real, vx: real, vy: real)
      modifies this`x, this`y, this`vx, this`vy
      ensures Snap() == old(Snap()).(x := x, y := y, vx := vx, vy := vy)
    {
      this.x := x;
      this.y := y;
      this.vx := vx;
      this.vy := vy;
    }

    method SetVelocity(vx: real, vy: real)
      modifies this`vx, this`vy
      ensures this.vx == vx && this.vy == vy
    {
      this.vx := vx;
      this.vy := vy;
    }

    method SetMass(mass: real)
      modifies this`mass
      ensures this.mass == mass
    {
      this.mass := mass;
    }
  }

  /** An acceleration component after a force component is applied to a mass. */
  function Accelerated(a: real, f: real, mass: real): real
    requires mass != 0.0
  {
    a + f / mass
  }

  /** Applied forces accumulate: two applications amount to one with the summed force, so
      their order does not matter. */
  lemma ForcesAccumulate(a: real, f1: real, f2: real, mass: real)
    requires mass != 0.0
    ensures Accelerated(Accelerated(a, f1, mass), f2, mass) == Accelerated(a, f1 + f2, mass)
    ensures Accelerated(Accelerated(a, f1, mass), f2, mass)
         == Accelerated(Accelerated(a, f2, mass), f1, mass)
  {
  }

  /** The snapshots of a sequence of particles, element by element. */
  function Bodies(ps: seq<Particle>): (bs: seq<Body>)
    reads ps`x, ps`y, ps`vx, ps`vy, ps`mass, ps`radius
    ensures |bs| == |ps|
    ensures forall i {:trigger bs[i]} :: 0 <= i < |ps| ==> bs[i] == ps[i].Snap()
    decreases |ps|
  {
    if ps == [] then [] else Bodies(ps[..|ps| - 1]) + [ps[|ps| - 1].Snap()]
  }

  /** The bodies of a concatenation are the concatenated bodies. */
  lemma BodiesAppend(a: seq<Particle>, b: seq<Particle>)
    ensures Bodies(a + b) == Bodies(a) + Bodies(b)
  {
    assert forall i :: 0 <= i < |a + b| ==> (a + b)[i] == if i < |a| then a[i] else b[i - |a|];
  }

  /** The bodies of a prefix grow by the next particle's snapshot. */
  lemma BodiesSnoc(ps: seq<Particle>, j: nat)
    requires j < |ps|
    ensures Bodies(ps[..j + 1]) == Bodies(ps[..j]) + [ps[j].Snap()]
  {
    assert ps[..j + 1][..j] == ps[..j];
  }

  // Sums over bodies.

  function Sum(bs: seq<Body>, f: Body -> real): real
    decreases |bs|
  {
    if |bs| == 0 then 0.0 else Sum(bs[..|bs| - 1], f) + f(bs[|bs| - 1])
  }

  function Mass(b: Body): real { b.mass }
  function MomentX(b: Body): real { b.x * b.mass }
  function MomentY(b: Body): real { b.y * b.mass }
  function MomentumX(b: Body): real { b.vx * b.mass }
  function MomentumY(b: Body): real { b.vy * b.mass }

  function TotalMass(bs: seq<Body>): real { Sum(bs, Mass) }

  predicate NonNegativeMasses(bs: seq<Body>)
  {
    forall i :: 0 <= i < |bs| ==> bs[i].mass >= 0.0
  }

  predicate PositiveMasses(bs: seq<Body>)
  {
    forall i :: 0 <= i < |bs| ==> bs[i].mass > 0.0
  }

  lemma {:induction false} SumAppend(a: seq<Body>, b: seq<Body>, f: Body -> real)
    ensures Sum(a + b, f) == Sum(a, f) + Sum(b, f)
    decreases |b|
  {
    if b != [] {
      var b' := b[..|b| - 1];
      assert (a + b)[..|a + b| - 1] == a + b';
      SumAppend(a, b', f);
    } else {
      assert a + b == a;
    }
  }

  /** A sum grows by the value of the element appended. */
  lemma SumSnoc(bs: seq<Body>, b: Body, f: Body -> real)
    ensures Sum(bs + [b], f) == Sum(bs, f) + f(b)
  {
    assert (bs + [b])[..|bs|] == bs;
  }

  /** Replacing one element changes the sum by the difference of the two values. */
  lemma SumUpdate(bs: seq<Body>, i: nat, v: Body, f: Body -> real)
    requires i < |bs|
    ensures Sum(bs[i := v], f) == Sum(bs, f) - f(bs[i]) + f(v)
  {
    var l, r := bs[..i], bs[i + 1..];
    assert bs[i := v] == l + [v] + r;
    assert bs[i := v][..i] + bs[i := v][i + 1..] == l + r;
    SumRemove(bs, i, f);
    SumRemove(bs[i := v], i, f);
  }

  /** Removing one element takes its value out of the sum. */
  lemma SumRemove(bs: seq<Body>, j: nat, f: Body -> real)
    requires j < |bs|
    ensures Sum(bs[..j] + bs[j + 1..], f) == Sum(bs, f) - f(bs[j])
  {
    var l, m, r := bs[..j], bs[..j + 1], bs[j + 1..];
    assert m + r == bs;
    SumAppend(m, r, f);
    SumPrefix(bs, j, f);
    SumAppend(l, r, f);
  }

  /** A prefix's sum grows by the next element's value. */
  lemma SumPrefix(bs: seq<Body>, j: nat, f: Body -> real)
    requires j < |bs|
    ensures Sum(bs[..j + 1], f) == Sum(bs[..j], f) + f(bs[j])
  {
    assert bs[..j + 1][..j] == bs[..j];
  }

  /** Removing element `k` takes one occurrence of it out of the multiset. */
  lemma MultisetRemove<T>(s: seq<T>, k: nat)
    requires k < |s|
    ensures multiset(s[..k] + s[k + 1..]) == multiset(s) - multiset{s[k]}
  {
    assert s == s[..k] + [s[k]] + s[k + 1..];
    assert multiset(s) == multiset(s[..k]) + multiset{s[k]} + multiset(s[k + 1..]);
  }

  /** Particles that are a permutation of each other have snapshots that are a permutation of
      each other. */
  lemma {:induction false} BodiesPermutation(a: seq<Particle>, b: seq<Particle>)
    requires multiset(a) == multiset(b)
    ensures multiset(Bodies(a)) == multiset(Bodies(b))
    decreases |a|
  {
    if a == [] {
      assert b == [] by { assert |b| == |multiset(b)| == 0; }
    } else {
      var n := |a| - 1;
      assert a[n] in multiset(b) by { assert a[n] in a; }
      var k :| 0 <= k < |b| && b[k] == a[n];
      var a', b' := a[..n], b[..k] + b[k + 1..];
      MultisetRemove(a, n);
      MultisetRemove(b, k);
      assert a[..n] + a[n + 1..] == a';
      BodiesPermutation(a', b');
      var x := a[n].Snap();
      assert Bodies(a) == Bodies(a') + [x];
      BodiesRemove(b, k);
      var bs := Bodies(b);
      assert bs[k] == x;
      MultisetRemove(bs, k);
      Readded(multiset(bs), multiset(Bodies(a')), x);
    }
  }

  /** Taking one occurrence of `x` out of `m` and putting it back gives `m`. */
  lemma Readded<T>(m: multiset<T>, r: multiset<T>, x: T)
    requires x in m && r == m - multiset{x}
    ensures r + multiset{x} == m
  {
  }

  /** The snapshots of a list without entry `k` are its snapshots without entry `k`. */
  lemma {:induction false} BodiesRemove(ps: seq<Particle>, k: nat)
    requires k < |ps|
    ensures Bodies(ps[..k] + ps[k + 1..]) == Bodies(ps)[..k] + Bodies(ps)[k + 1..]
  {
    assert ps == ps[..k] + ([ps[k]] + ps[k + 1..]);
    BodiesAppend(ps[..k], [ps[k]] + ps[k + 1..]);
    BodiesAppend([ps[k]], ps[k + 1..]);
    BodiesAppend(ps[..k], ps[k + 1..]);
  }

  /** A sum does not depend on the order of its terms. */
  lemma {:induction false} SumPermutation(a: seq<Body>, b: seq<Body>, f: Body -> real)
    requires multiset(a) == multiset(b)
    ensures Sum(a, f) == Sum(b, f)
    decreases |a|
  {
    if a == [] {
      assert b == [] by { assert |b| == |multiset(b)| == 0; }
    } else {
      var n := |a| - 1;
      var last := a[n];
      assert last in multiset(b) by { assert a[n] in a; }
      var k :| 0 <= k < |b| && b[k] == last;
      MultisetRemove(a, n);
      MultisetRemove(b, k);
      assert a[..n] + a[n + 1..] == a[..n];
      SumPermutation(a[..n], b[..k] + b[k + 1..], f);
      SumRemove(b, k, f);
    }
  }

  lemma {:induction false} TotalMassNonNegative(bs: seq<Body>)
    requires NonNegativeMasses(bs)
    ensures TotalMass(bs) >= 0.0
    decreases |bs|
  {
    if bs != [] {
      TotalMassNonNegative(bs[..|bs| - 1]);
    }
  }

  /** Bodies of non-negative mass that weigh nothing in total have no moment. */
  lemma {:induction false} WeightlessHasNoMoment(bs: seq<Body>)
    requires NonNegativeMasses(bs) && TotalMass(bs) == 0.0
    ensures Sum(bs, MomentX) == 0.0 && Sum(bs, MomentY) == 0.0
    decreases |bs|
  {
    if bs != [] {
      var bs' := bs[..|bs| - 1];
      TotalMassNonNegative(bs');
      assert bs[|bs| - 1].mass == 0.0;
      WeightlessHasNoMoment(bs');
    }
  }
}
