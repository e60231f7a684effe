/** The simulation step of `src/Two/ParticleSimulationClean.java` without its drawing and its
    Swing plumbing: a list of particles around a centre, a tick that builds a quadtree over
    them, applies the Barnes-Hut forces, advances and bounces every particle and then
    resolves or merges colliding particles, and the two operations the user triggers,
    adding a particle in orbit and (on a resize) repositioning the two central stars. */
module Simulation {
  import opened Numerics
  import opened Kinematics
  import opened Particles
  import opened Geometry
  import opened QuadTrees
  import opened Collisions

  /** Half the distance between the two central stars. */
  const ParticleOffset: int32 := 100
  /** The gravitational constant of the simulation. */
  const G: real := 6.67430e-3
  /** The Barnes-Hut threshold. */
  const Theta: real := 0.1
  /** The length of one tick. */
  const TimeStep: real := 0.1
  /** The margin around the particles' bounding box that the quadtree covers. */
  const Margin: real := 100.0
  /** The capacity of a quadtree leaf. */
  const Capacity: int32 := 4
  /** The factor a bounce keeps of the velocity across the wall. */
  const WallDamping: real := 0.8

  datatype Option<T> = None | Some(value: T)

  // Adding a particle.

  /** `x - c` in Java `int` arithmetic, widened to a double. */
  function Offset(x: int32, c: int32): real
  {
    Wrap32(x as int - c as int) as real
  }

  /** The particle a click at `(x, y)` adds when the centre is `(cx, cy)`: none closer than 20
      to the centre; otherwise a particle of radius 5 and mass 10 at the click, moving
      perpendicular to the radius at 0.7 times the speed of a circular orbit around a mass of
      2000. */
  function Launch(x: int32, y: int32, cx: int32, cy: int32, sqrt: real -> real): Option<Body>
  {
    var dx, dy := Offset(x, cx), Offset(y, cy);
    var distance := Root(sqrt, SquaredDistance(dx, dy));
    if distance < 20.0 then None
    else
      var speed := OrbitSpeed(distance, sqrt);
      Some(Body(x as real, y as real, Along(-dy, distance, speed), Along(dx, distance, speed), 10.0, 5))
  }

  /** The component `u / distance` of a unit vector, scaled by `speed`. */
  function Along(u: real, distance: real, speed: real): real
    requires distance != 0.0
  {
    u / distance * speed
  }

  /** 0.7 times the speed of a circular orbit at `distance` around a mass of 2000. */
  function OrbitSpeed(distance: real, sqrt: real -> real): real
    requires distance > 0.0
  {
    Root(sqrt, G * 2000.0 / distance) * 0.7
  }

  /** A click adds a particle exactly when it is at least 20 away from the centre. */
  lemma LaunchNeedsDistance(x: int32, y: int32, cx: int32, cy: int32, sqrt: real -> real)
    requires IsSqrt(sqrt)
    ensures Launch(x, y, cx, cy, sqrt).Some? <==> SquaredDistance(Offset(x, cx), Offset(y, cy)) >= 400.0
  {
    Distance(sqrt, Offset(x, cx), Offset(y, cy));
    SqrtBelow(sqrt, SquaredDistance(Offset(x, cx), Offset(y, cy)), 20.0);
  }

  /** The added particle sits at the click, weighs 10 with radius 5, and moves perpendicular
      to its offset from the centre. */
  lemma LaunchTangential(x: int32, y: int32, cx: int32, cy: int32, sqrt: real -> real)
    requires Launch(x, y, cx, cy, sqrt).Some?
    ensures var b := Launch(x, y, cx, cy, sqrt).value;
      b.x == x as real && b.y == y as real && b.mass == 10.0 && b.radius == 5 &&
      b.vx * Offset(x, cx) + b.vy * Offset(y, cy) == 0.0
  {
    var dx, dy := Offset(x, cx), Offset(y, cy);
    Perpendicular(dx, dy, Root(sqrt, SquaredDistance(dx, dy)), OrbitSpeed(Root(sqrt, SquaredDistance(dx, dy)), sqrt));
  }

  /** The added particle's squared speed is 0.49 times `G * 2000 / distance`, the squared
      speed of a circular orbit of that radius around a mass of 2000. */
  lemma LaunchSpeed(x: int32, y: int32, cx: int32, cy: int32, sqrt: real -> real)
    requires IsSqrt(sqrt) && Launch(x, y, cx, cy, sqrt).Some?
    ensures var b := Launch(x, y, cx, cy, sqrt).value;
      var distance := Root(sqrt, SquaredDistance(Offset(x, cx), Offset(y, cy)));
      b.vx * b.vx + b.vy * b.vy == 0.49 * (G * 2000.0 / distance)
  {
    var dx, dy := Offset(x, cx), Offset(y, cy);
    var distance := Root(sqrt, SquaredDistance(dx, dy));
    Launched(x, y, cx, cy, sqrt, dx, dy, distance);
    Distance(sqrt, dx, dy);
    var b := Launch(x, y, cx, cy, sqrt).value;
    TangentSpeed(dx, dy, distance, OrbitSpeed(distance, sqrt), b.vx, b.vy);
    OrbitSpeedSquared(distance, sqrt);
  }

  /** Moving at `s` along the unit tangent `(-dy, dx) / distance` is moving at speed `s`. */
  lemma TangentSpeed(dx: real, dy: real, distance: real, s: real, vx: real, vy: real)
    requires distance > 0.0 && distance * distance == SquaredDistance(dx, dy)
    requires vx == Along(-dy, distance, s) && vy == Along(dx, distance, s)
    ensures vx * vx + vy * vy == s * s
  {
    UnitNormal(dx, dy, distance);
    Rotated(dx / distance, dy / distance, -dy / distance, s);
  }

  /** The squared speed of `OrbitSpeed`. */
  lemma OrbitSpeedSquared(distance: real, sqrt: real -> real)
    requires IsSqrt(sqrt) && distance > 0.0
    ensures OrbitSpeed(distance, sqrt) * OrbitSpeed(distance, sqrt) == 0.49 * (G * 2000.0 / distance)
  {
    var r := Root(sqrt, G * 2000.0 / distance);
    assert r * r == G * 2000.0 / distance;
    assert (r * 0.7) * (r * 0.7) == 0.49 * (r * r);
  }

  /** The velocity `s` times the unit vector `(nb, a)`, where `nb` is `-b`, has speed `s`. */
  lemma Rotated(a: real, b: real, nb: real, s: real)
    requires a * a + b * b == 1.0 && nb == -b
    ensures (nb * s) * (nb * s) + (a * s) * (a * s) == s * s
  {
    assert (nb * s) * (nb * s) == (b * b) * (s * s);
    assert (a * s) * (a * s) == (a * a) * (s * s);
    assert (b * b) * (s * s) + (a * a) * (s * s) == (a * a + b * b) * (s * s);
  }

  lemma Perpendicular(dx: real, dy: real, d: real, s: real)
    ensures d != 0.0 ==> (-dy / d * s) * dx + (dx / d * s) * dy == 0.0
  {
  }

  // Repositioning the central stars.

  /** The first two particles as `repositionParticles` leaves them: the first `ParticleOffset`
      left of the centre moving down at speed 1, the second `ParticleOffset` right of it moving
      up (screen coordinates), the offsets taken in Java `int` arithmetic. Masses and radii
      stay. */
  function Stars(cx: int32, cy: int32, b0: Body, b1: Body): (Body, Body)
  {
    (b0.(x := Wrap32(cx as int - ParticleOffset as int) as real, y := cy as real, vx := 0.0, vy := 1.0),
     b1.(x := Wrap32(cx as int + ParticleOffset as int) as real, y := cy as real, vx := 0.0, vy := -1.0))
  }

  /** Two stars of equal mass are placed so that, unless the centre is within
      `ParticleOffset` of the `int` range's ends, their centre of mass is the centre and
      their momenta cancel. */
  lemma StarsBalanced(cx: int32, cy: int32, b0: Body, b1: Body)
    requires b0.mass == b1.mass && -0x8000_0000 + 100 <= cx < 0x8000_0000 - 100
    ensures var s := Stars(cx, cy, b0, b1);
      PairTotals(s.0, s.1) == (2.0 * b0.mass, 0.0, 0.0, 2.0 * (cx as real * b0.mass), 2.0 * (cy as real * b0.mass))
  {
    var s := Stars(cx, cy, b0, b1);
    assert Wrap32(cx as int - ParticleOffset as int) == cx as int - 100;
    assert Wrap32(cx as int + ParticleOffset as int) == cx as int + 100;
    assert s.0.x + s.1.x == 2.0 * cx as real;
    Weigh(s.0.x, s.1.x, cx as real, b0.mass);
    Weigh(s.0.y, s.1.y, cy as real, b0.mass);
    assert Mass(s.0) + Mass(s.1) == 2.0 * b0.mass;
    assert MomentumX(s.0) + MomentumX(s.1) == 0.0;
    assert MomentumY(s.0) + MomentumY(s.1) == 0.0;
    assert MomentX(s.0) + MomentX(s.1) == 2.0 * (cx as real * b0.mass);
    assert MomentY(s.0) + MomentY(s.1) == 2.0 * (cy as real * b0.mass);
  }

  lemma Weigh(u: real, v: real, c: real, m: real)
    requires u + v == 2.0 * c
    ensures u * m + v * m == 2.0 * (c * m)
  {
  }

  // Bouncing off the walls of the panel.

  /** `Math.min` and `Math.max` on doubles that are not NaN. */
  function Min(a: real, b: real): real { if a <= b then a else b }
  function Max(a: real, b: real): real { if a >= b then a else b }

  /** The wall handling of the tick for a panel of `width` by `height`: a particle beyond a
      vertical wall has its horizontal velocity reversed and damped and is put back on the
      wall, and likewise for the horizontal walls. */
  function Bounced(m: Motion, width: int32, height: int32): Motion
  {
    var m1 := if m.x < 0.0 || m.x > width as real
      then m.(vx := -m.vx * WallDamping, x := Max(0.0, Min(m.x, width as real))) else m;
    if m1.y < 0.0 || m1.y > height as real
    then m1.(vy := -m1.vy * WallDamping, y := Max(0.0, Min(m1.y, height as real))) else m1
  }

  /** After the bounce the particle is inside the panel, a particle already inside is left
      alone, and each velocity component either stays or is reversed and damped. */
  lemma BounceConfines(m: Motion, width: int32, height: int32)
    requires width >= 0 && height >= 0
    ensures var r := Bounced(m, width, height);
      0.0 <= r.x <= width as real && 0.0 <= r.y <= height as real &&
      (r.vx == m.vx || r.vx == -m.vx * WallDamping) && (r.vy == m.vy || r.vy == -m.vy * WallDamping) &&
      Abs(r.vx) <= Abs(m.vx) && Abs(r.vy) <= Abs(m.vy)
    ensures var r := Bounced(m, width, height);
      ((m.x < 0.0 || m.x > width as real) ==>
         r.vx == -m.vx * WallDamping && r.x == Max(0.0, Min(m.x, width as real))) &&
      (0.0 <= m.x <= width as real ==> r.vx == m.vx && r.x == m.x) &&
      ((m.y < 0.0 || m.y > height as real) ==>
         r.vy == -m.vy * WallDamping && r.y == Max(0.0, Min(m.y, height as real))) &&
      (0.0 <= m.y <= height as real ==> r.vy == m.vy && r.y == m.y)
  {
  }

  /** A particle inside the panel does not bounce, so bouncing twice is bouncing once. */
  lemma BounceIdempotent(m: Motion, width: int32, height: int32)
    requires width >= 0 && height >= 0
    ensures 0.0 <= m.x <= width as real && 0.0 <= m.y <= height as real ==> Bounced(m, width, height) == m
    ensures Bounced(Bounced(m, width, height), width, height) == Bounced(m, width, height)
  {
    BounceConfines(m, width, height);
  }

  // The region of the quadtree.

  function PosX(b: Body): real { b.x }
  function PosY(b: Body): real { b.y }

  /** The running `Math.min` of the tick's bounds search, started at `Double.MAX_VALUE`. */
  function Lowest(bs: seq<Body>, f: Body -> real): real
    decreases |bs|
  {
    if |bs| == 0 then DoubleMaxValue else Min(Lowest(bs[..|bs| - 1], f), f(bs[|bs| - 1]))
  }

  /** The running `Math.max`, started at `Double.MIN_VALUE`, the smallest positive double. */
  function Highest(bs: seq<Body>, f: Body -> real): real
    decreases |bs|
  {
    if |bs| == 0 then DoubleMinValue else Max(Highest(bs[..|bs| - 1], f), f(bs[|bs| - 1]))
  }

  /** The search finds a lower bound of every value that is either its starting value or one
      of the values. */
  lemma {:induction false} LowestBounds(bs: seq<Body>, f: Body -> real)
    ensures Lowest(bs, f) <= DoubleMaxValue
    ensures forall k :: 0 <= k < |bs| ==> Lowest(bs, f) <= f(bs[k])
    ensures Lowest(bs, f) == DoubleMaxValue || exists k :: 0 <= k < |bs| && Lowest(bs, f) == f(bs[k])
    decreases |bs|
  {
    if |bs| > 0 {
      var n := |bs| - 1;
      LowestBounds(bs[..n], f);
      assert forall k :: 0 <= k < n ==> bs[..n][k] == bs[k];
    }
  }

  /** The search finds an upper bound of every value that is either its starting value or
      one of the values: when every value is negative the bound is `Double.MIN_VALUE`,
      which is positive. */
  lemma {:induction false} HighestBounds(bs: seq<Body>, f: Body -> real)
    ensures Highest(bs, f) >= DoubleMinValue
    ensures forall k :: 0 <= k < |bs| ==> f(bs[k]) <= Highest(bs, f)
    ensures Highest(bs, f) == DoubleMinValue || exists k :: 0 <= k < |bs| && Highest(bs, f) == f(bs[k])
    decreases |bs|
  {
    if |bs| > 0 {
      var n := |bs| - 1;
      HighestBounds(bs[..n], f);
      assert forall k :: 0 <= k < n ==> bs[..n][k] == bs[k];
    }
  }

  /** One more value in the minimum and maximum searches. */
  lemma SearchSnoc(bs: seq<Body>, b: Body, f: Body -> real)
    ensures Lowest(bs + [b], f) == Min(Lowest(bs, f), f(b))
    ensures Highest(bs + [b], f) == Max(Highest(bs, f), f(b))
  {
    assert (bs + [b])[..|bs|] == bs;
  }

  /** The region of the tick's quadtree: the bounding box found by the search, widened by
      `Margin` on every side. */
  function Boundary(bs: seq<Body>): Rect
  {
    var minX, minY := Lowest(bs, PosX) - Margin, Lowest(bs, PosY) - Margin;
    var maxX, maxY := Highest(bs, PosX) + Margin, Highest(bs, PosY) + Margin;
    Rect(minX, minY, maxX - minX, maxY - minY)
  }

  /** Region `r` contains every particle of `bs`. */
  predicate Covers(r: Rect, bs: seq<Body>)
  {
    forall k :: 0 <= k < |bs| ==> Contains(r, bs[k].x, bs[k].y)
  }

  /** The region contains every particle, so no insertion of the tick is turned away. */
  lemma BoundaryCovers(bs: seq<Body>)
    ensures Covers(Boundary(bs), bs)
  {
    LowestBounds(bs, PosX);
    LowestBounds(bs, PosY);
    HighestBounds(bs, PosX);
    HighestBounds(bs, PosY);
    forall k | 0 <= k < |bs|
      ensures Contains(Boundary(bs), bs[k].x, bs[k].y)
    {
      assert PosX(bs[k]) == bs[k].x && PosY(bs[k]) == bs[k].y;
    }
  }

  // Positions the quadtree can separate.

  /** No two particles share a position. */
  predicate DistinctPositions(bs: seq<Body>)
  {
    forall m, k {:trigger Elsewhere(bs[m], bs[k])} :: 0 <= m < k < |bs| ==> Elsewhere(bs[m], bs[k])
  }

  /** Two particles at different positions. */
  predicate Elsewhere(a: Body, b: Body)
  {
    a.x != b.x || a.y != b.y
  }

  /** Every two particles are at least `delta` apart on some axis. */
  predicate Spaced(bs: seq<Body>, delta: real)
  {
    forall m, k {:trigger Gap(bs[k].x, bs[k].y, bs[m].x, bs[m].y)} :: 0 <= m < k < |bs| ==>
      Gap(bs[k].x, bs[k].y, bs[m].x, bs[m].y) >= delta
  }

  /** Finitely many distinct positions are some positive distance apart. */
  lemma {:induction false} SpacingExists(bs: seq<Body>) returns (delta: real)
    requires DistinctPositions(bs)
    ensures delta > 0.0 && Spaced(bs, delta)
    decreases |bs|
  {
    if |bs| == 0 {
      return 1.0;
    }
    var n := |bs| - 1;
    var init := bs[..n];
    assert forall k :: 0 <= k < n ==> init[k] == bs[k];
    var d0 := SpacingExists(init);
    var d1 := NearestGap(bs, n, n);
    delta := Min(d0, d1);
  }

  /** The particles before `j` are some positive distance away from particle `n`. */
  lemma {:induction false} NearestGap(bs: seq<Body>, n: nat, j: nat) returns (d: real)
    requires j <= n < |bs| && DistinctPositions(bs)
    ensures d > 0.0 && forall m :: 0 <= m < j ==> Gap(bs[n].x, bs[n].y, bs[m].x, bs[m].y) >= d
    decreases j
  {
    if j == 0 {
      return 1.0;
    }
    var d0 := NearestGap(bs, n, j - 1);
    assert Elsewhere(bs[j - 1], bs[n]);
    d := Min(d0, Gap(bs[n].x, bs[n].y, bs[j - 1].x, bs[j - 1].y));
  }

  /** A particle of a spaced list is `delta` away from every earlier particle, hence from
      every particle of an arena that holds exactly the earlier ones. */
  lemma ApartFromEarlier(ps: seq<Particle>, bs: seq<Body>, k: nat, nodes: seq<Node>, delta: real)
    requires k < |ps| && Mirrors(ps, bs) && Spaced(bs, delta) && Held(nodes) == multiset(ps[..k])
    ensures Apart(ps[k], nodes, delta)
  {
    forall n, q | 0 <= n < |nodes| && q in nodes[n].particles
      ensures Gap(ps[k].x, ps[k].y, q.x, q.y) >= delta
    {
      HeldMember(nodes, n, q);
      assert q in ps[..k];
      var m :| 0 <= m < k && ps[..k][m] == q;
      assert bs[m] == q.Snap() && bs[k] == ps[k].Snap();
      assert Gap(bs[k].x, bs[k].y, bs[m].x, bs[m].y) >= delta;
    }
  }

  // The motion of a tick.

  /** One particle over a tick's motion under the acceleration `(ax, ay)`: the Euler step of
      `TimeStep` advances it and the walls bounce it. Mass and radius stay. */
  function Advanced(b: Body, ax: real, ay: real, width: int32, height: int32): (r: Body)
    ensures Like(b, r)
  {
    var m := Bounced(EulerStep(Motion(b.x, b.y, b.vx, b.vy), ax, ay, TimeStep), width, height);
    Body(m.x, m.y, m.vx, m.vy, b.mass, b.radius)
  }

  /** The acceleration the tree `(nodes, summaries)` gives a body of non-zero mass, starting
      from an empty buffer. */
  function Pull(b: Body, nodes: seq<Node>, summaries: seq<Summary>, sqrt: real -> real): (real, real)
    requires b.mass != 0.0 && 0 < |nodes| == |summaries| && IsSqrt(sqrt)
  {
    var f := ForceOn(nodes, summaries, 0, b.x, b.y, b.mass, G, Theta, sqrt);
    (Accelerated(0.0, f.x, b.mass), Accelerated(0.0, f.y, b.mass))
  }

  /** Every particle of `bs` after the tick's motion, under the forces of the tree
      `(nodes, summaries)`, each force taken at the particle's position before the motion. */
  function Moved(bs: seq<Body>, nodes: seq<Node>, summaries: seq<Summary>, width: int32, height: int32,
                 sqrt: real -> real): (r: seq<Body>)
    requires PositiveMasses(bs) && 0 < |nodes| == |summaries| && IsSqrt(sqrt)
    ensures |r| == |bs| && PositiveMasses(r)
    decreases |bs|
  {
    if |bs| == 0 then []
    else
      var n := |bs| - 1;
      assert forall k :: 0 <= k < n ==> bs[..n][k] == bs[k];
      var a := Pull(bs[n], nodes, summaries, sqrt);
      Moved(bs[..n], nodes, summaries, width, height, sqrt) + [Advanced(bs[n], a.0, a.1, width, height)]
  }

  /** Each particle moves on its own: entry `k` of `Moved` is entry `k` of `bs` advanced
      under the tree's pull on it. */
  lemma {:induction false} MovedEach(bs: seq<Body>, nodes: seq<Node>, summaries: seq<Summary>, width: int32,
                                     height: int32, sqrt: real -> real)
    requires PositiveMasses(bs) && 0 < |nodes| == |summaries| && IsSqrt(sqrt)
    ensures forall k :: 0 <= k < |bs| ==>
      Moved(bs, nodes, summaries, width, height, sqrt)[k] ==
        Advanced(bs[k], Pull(bs[k], nodes, summaries, sqrt).0, Pull(bs[k], nodes, summaries, sqrt).1, width, height)
    decreases |bs|
  {
    if |bs| > 0 {
      var n := |bs| - 1;
      assert forall k :: 0 <= k < n ==> bs[..n][k] == bs[k];
      MovedEach(bs[..n], nodes, summaries, width, height, sqrt);
    }
  }

  /** With walls at non-negative distances, the tick's motion leaves every particle inside
      the panel and keeps every mass and radius. */
  lemma MovedConfines(bs: seq<Body>, nodes: seq<Node>, summaries: seq<Summary>, width: int32, height: int32,
                      sqrt: real -> real)
    requires PositiveMasses(bs) && 0 < |nodes| == |summaries| && IsSqrt(sqrt) && width >= 0 && height >= 0
    ensures Kept(bs, Moved(bs, nodes, summaries, width, height, sqrt))
    ensures forall k :: 0 <= k < |bs| ==>
      var b := Moved(bs, nodes, summaries, width, height, sqrt)[k];
      0.0 <= b.x <= width as real && 0.0 <= b.y <= height as real
  {
    var r := Moved(bs, nodes, summaries, width, height, sqrt);
    MovedEach(bs, nodes, summaries, width, height, sqrt);
    forall k | 0 <= k < |bs|
      ensures 0.0 <= r[k].x <= width as real && 0.0 <= r[k].y <= height as real
    {
      var a := Pull(bs[k], nodes, summaries, sqrt);
      BounceConfines(EulerStep(Motion(bs[k].x, bs[k].y, bs[k].vx, bs[k].vy), a.0, a.1, TimeStep), width, height);
    }
  }

  // The simulation object.

  /** Each particle object appears once in the list. */
  predicate Distinct(ps: seq<Particle>)
  {
    forall m, k {:trigger At(ps, m), At(ps, k)} :: 0 <= m < |ps| && 0 <= k < |ps| && m != k ==> At(ps, m) != At(ps, k)
  }

  /** Entry `k` of a list; the name `Distinct` is instantiated on. */
  function At(ps: seq<Particle>, k: nat): Particle
    requires k < |ps|
  {
    ps[k]
  }

  /** The list is `bs` one to one and between ticks, with positive masses. */
  ghost predicate Tracks(ps: seq<Particle>, bs: seq<Body>)
    reads ps
  {
    Distinct(ps) && Mirrors(ps, bs) && Quiet(ps) && PositiveMasses(bs)
  }

  /** Every acceleration buffer is empty, as it is between ticks. */
  predicate Quiet(ps: seq<Particle>)
    reads ps`ax, ps`ay
  {
    forall k :: 0 <= k < |ps| ==> ps[k].ax == 0.0 && ps[k].ay == 0.0
  }

  /** The snapshot of a list whose entry `j` is removed and whose entry `i` is then replaced. */
  lemma BodiesRemoveSet(ps: seq<Particle>, i: nat, j: nat, q: Particle)
    requires i < j < |ps|
    ensures Bodies((ps[..j] + ps[j + 1..])[i := q]) == Remove(Bodies(ps), j)[i := q.Snap()]
  {
    var a, b := Bodies((ps[..j] + ps[j + 1..])[i := q]), Remove(Bodies(ps), j)[i := q.Snap()];
    assert forall k :: 0 <= k < |a| ==> a[k] == b[k];
  }

  /** `bs` lists the snapshots of the particles of `ps`, entry by entry. */
  ghost predicate Mirrors(ps: seq<Particle>, bs: seq<Body>)
    reads ps`x, ps`y, ps`vx, ps`vy, ps`mass, ps`radius
  {
    |ps| == |bs| && forall k :: 0 <= k < |ps| ==> ps[k].Snap() == bs[k]
  }

  /** A list of bodies that mirrors the particles is `Bodies`. */
  lemma SnapsAreBodies(ps: seq<Particle>, bs: seq<Body>)
    requires Mirrors(ps, bs)
    ensures Bodies(ps) == bs
  {
  }

  /** The bodies gathered below the root of a tree are those of the particles below it. */
  lemma RootMirrors(nodes: seq<Node>, w: seq<seq<Body>>, ps: seq<Particle>, bs: seq<Body>)
    requires 0 < |nodes| && Pictures(nodes, w) && multiset(Below(nodes, 0)) == multiset(ps) && Mirrors(ps, bs)
    ensures multiset(Gathered(nodes, w, 0)) == multiset(bs)
  {
    RootGathersAll(nodes, w, ps);
    SnapsAreBodies(ps, bs);
  }

  /** The snapshots after a merge event are the merge event on the snapshots. */
  lemma SnapsAfterMerge(ps: seq<Particle>, bs: seq<Body>, b1: Body, i: nat, j: nat, q: Particle,
                        cbrt: real -> real)
    requires i < j < |ps| && Mirrors(ps, bs)
    requires b1.mass + bs[j].mass != 0.0 && q.Snap() == Merged(b1, bs[j], cbrt)
    ensures Mirrors((ps[..j] + ps[j + 1..])[i := q], MergeAt(bs, b1, i, j, cbrt))
  {
    var r := (ps[..j] + ps[j + 1..])[i := q];
    forall k | 0 <= k < |r|
      ensures r[k].Snap() == MergeAt(bs, b1, i, j, cbrt)[k]
    {
      if k != i {
        var m := if k < j then k else k + 1;
        assert r[k] == ps[m];
        assert MergeAt(bs, b1, i, j, cbrt)[k] == bs[m];
      }
    }
  }

  /** `Launch` in the terms `addParticleAt` computes it. */
  lemma Launched(x: int32, y: int32, cx: int32, cy: int32, sqrt: real -> real, dx: real, dy: real,
                 distance: real)
    requires dx == Offset(x, cx) && dy == Offset(y, cy) && distance == Root(sqrt, SquaredDistance(dx, dy))
    ensures distance < 20.0 <==> Launch(x, y, cx, cy, sqrt).None?
    ensures distance >= 20.0 ==>
              Launch(x, y, cx, cy, sqrt).value ==
              Body(x as real, y as real, Along(-dy, distance, OrbitSpeed(distance, sqrt)),
                   Along(dx, distance, OrbitSpeed(distance, sqrt)), 10.0, 5)
  {
  }

  /** Appending a particle of positive mass with an empty buffer keeps the list valid. */
  lemma Appended(ps: seq<Particle>, p: Particle)
    requires Distinct(ps) && PositiveMasses(Bodies(ps)) && Quiet(ps) && p !in ps
    requires p.mass > 0.0 && p.ax == 0.0 && p.ay == 0.0
    ensures Distinct(ps + [p]) && PositiveMasses(Bodies(ps + [p])) && Quiet(ps + [p])
  {
    var q := ps + [p];
    assert forall k :: 0 <= k < |ps| ==> q[k] == ps[k];
    forall m, k | 0 <= m < |q| && 0 <= k < |q| && m != k
      ensures At(q, m) != At(q, k)
    {
      if m < |ps| && k < |ps| {
        assert At(ps, m) != At(ps, k);
      } else if m < |ps| {
        assert q[m] in ps;
      } else {
        assert q[k] in ps;
      }
    }
    BodiesAppend(ps, [p]);
  }

  /** A snapshot that differs from `before` only at `i` and `j`. */
  lemma Rewritten(before: seq<Body>, after: seq<Body>, i: nat, j: nat, u: Body, v: Body)
    requires i < j < |before| == |after| && after[i] == u && after[j] == v
    requires forall k :: 0 <= k < |after| && k != i && k != j ==> after[k] == before[k]
    ensures after == before[i := u][j := v]
  {
  }

  /** Snapshots that keep every mass keep positive masses. */
  lemma KeptPositive(a: seq<Body>, b: seq<Body>)
    requires Kept(a, b) && PositiveMasses(a)
    ensures PositiveMasses(b)
  {
    forall k | 0 <= k < |b|
      ensures b[k].mass > 0.0
    {
      assert Like(a[k], b[k]);
    }
  }

  /** Removing entry `j` and writing a new particle with an empty buffer into slot `i` keeps
      the particle objects distinct and the buffers empty. */
  lemma Merging(ps: seq<Particle>, i: nat, j: nat, q: Particle)
    requires i < j < |ps| && Distinct(ps) && Quiet(ps) && q !in ps && q.ax == 0.0 && q.ay == 0.0
    ensures Distinct((ps[..j] + ps[j + 1..])[i := q]) && Quiet((ps[..j] + ps[j + 1..])[i := q])
  {
    var r := (ps[..j] + ps[j + 1..])[i := q];
    assert forall k :: 0 <= k < |r| && k != i ==> r[k] == if k < j then ps[k] else ps[k + 1];
    forall m, k | 0 <= m < |r| && 0 <= k < |r| && m != k
      ensures At(r, m) != At(r, k)
    {
      if m == i {
        assert r[k] in ps;
      } else if k == i {
        assert r[m] in ps;
      } else {
        assert At(ps, if m < j then m else m + 1) != At(ps, if k < j then k else k + 1);
      }
    }
  }

  /** The tree of a tick over the particles `ps`, whose snapshot is `bs`: an arena over
      `Boundary(bs)` that holds every particle once, whose summaries are those of the
      snapshot `w` of its nodes, and below whose root `calculateMass` and `calculateForce`
      reach the snapshot of every particle once. */
  ghost predicate Planted(nodes: seq<Node>, summaries: seq<Summary>, w: seq<seq<Body>>, ps: seq<Particle>,
                          bs: seq<Body>)
  {
    0 < |nodes| == |summaries| == |w| && Structured(nodes) && nodes[0].boundary == Boundary(bs) &&
    Held(nodes) == multiset(ps) && Summarized(nodes, w, summaries, 0) &&
    multiset(Gathered(nodes, w, 0)) == multiset(bs)
  }

  /** The root of the tree of a tick summarizes the whole particle list: its total mass is
      the total mass of the list, and its centre of mass is the mass-weighted mean position
      of the list (the origin when the list weighs nothing). */
  lemma {:induction false} PlantedRoot(nodes: seq<Node>, summaries: seq<Summary>, w: seq<seq<Body>>,
                                       ps: seq<Particle>, bs: seq<Body>)
    requires Planted(nodes, summaries, w, ps, bs) && NonNegativeMasses(bs)
    ensures var s, total := summaries[0], TotalMass(bs);
      s.totalMass == total &&
      (total > 0.0 ==> s.centerOfMassX == Sum(bs, MomentX) / total && s.centerOfMassY == Sum(bs, MomentY) / total) &&
      (total == 0.0 ==> s.centerOfMassX == 0.0 && s.centerOfMassY == 0.0)
  {
    var g := Gathered(nodes, w, 0);
    forall i | 0 <= i < |g|
      ensures g[i].mass >= 0.0
    {
      assert g[i] in multiset(bs) by { assert g[i] in g; }
    }
    CentreIsMean(nodes, w, 0);
    SumPermutation(g, bs, Mass);
    SumPermutation(g, bs, MomentX);
    SumPermutation(g, bs, MomentY);
  }

  /** The tree of a tick over a single particle of non-negative mass exerts no force on it. */
  lemma {:induction false} LoneTreeFeelsNothing(nodes: seq<Node>, summaries: seq<Summary>, w: seq<seq<Body>>,
                                                ps: seq<Particle>, bs: seq<Body>, g: real, theta: real,
                                                sqrt: real -> real)
    requires Planted(nodes, summaries, w, ps, bs) && |bs| == 1 && bs[0].mass >= 0.0 && IsSqrt(sqrt)
    ensures ForceOn(nodes, summaries, 0, bs[0].x, bs[0].y, bs[0].mass, g, theta, sqrt) == NoForce
  {
    var s := Gathered(nodes, w, 0);
    assert bs == [bs[0]];
    assert |s| == 1 by { assert |multiset(s)| == |multiset(bs)| == 1; }
    assert s[0] in multiset(bs) by { assert s[0] in s; }
    assert s == [bs[0]];
    LoneParticleFeelsNothing(nodes, w, summaries, bs[0], g, theta, sqrt);
  }

  /** The force loop has filled the buffer of every particle before `k` with the pull of the
      tree `(nodes, summaries)` on its snapshot in `bs`, and left the other buffers empty. */
  ghost predicate PulledUpTo(ps: seq<Particle>, bs: seq<Body>, nodes: seq<Node>, summaries: seq<Summary>,
                             sqrt: real -> real, k: nat)
    reads ps
  {
    Distinct(ps) && Mirrors(ps, bs) && PositiveMasses(bs) && k <= |ps| && 0 < |nodes| == |summaries| &&
    IsSqrt(sqrt) && (forall m :: 0 <= m < k ==> (ps[m].ax, ps[m].ay) == Pull(bs[m], nodes, summaries, sqrt)) &&
    (forall m :: k <= m < |ps| ==> ps[m].ax == 0.0 && ps[m].ay == 0.0)
  }

  /** The motion loop has moved every particle before `k` to its place in `target`, emptying
      its buffer, and every other particle is one step, with the acceleration in its buffer,
      away from its place in `target`. */
  ghost predicate MovedUpTo(ps: seq<Particle>, target: seq<Body>, width: int32, height: int32, k: nat)
    reads ps
  {
    Distinct(ps) && |ps| == |target| && k <= |ps| &&
    (forall m :: 0 <= m < k ==> ps[m].Snap() == target[m] && ps[m].ax == 0.0 && ps[m].ay == 0.0) &&
    (forall m :: k <= m < |ps| ==> Advanced(ps[m].Snap(), ps[m].ax, ps[m].ay, width, height) == target[m])
  }

  class ParticleSimulation {
    var particles: seq<Particle>
    var centerX: int32
    var centerY: int32
    var shouldMerge: bool
    var quadTree: QuadTree?

    /** The list holds distinct particle objects of positive mass with empty acceleration
        buffers. */
    ghost predicate Valid()
      reads this`particles, particles
    {
      Distinct(particles) && PositiveMasses(Bodies(particles)) && Quiet(particles)
    }

    /** A simulation centred in the 800 by 600 panel, with merging off and no tree yet. */
    constructor ()
      ensures Valid() && particles == [] && centerX == 400 && centerY == 300
      ensures !shouldMerge && quadTree == null
    {
      particles := [];
      centerX := 400;
      centerY := 300;
      shouldMerge := false;
      quadTree := null;
    }

    /** `addParticleAt`: a click at `(x, y)` appends the particle `Launch` describes, a fresh
        object, or changes nothing when the click is within 20 of the centre. */
    method AddParticleAt(x: int32, y: int32, sqrt: real -> real)
      requires Valid()
      modifies this`particles
      ensures Valid()
      ensures Launch(x, y, centerX, centerY, sqrt).None? ==> particles == old(particles)
      ensures Launch(x, y, centerX, centerY, sqrt).Some? ==>
                |particles| == old(|particles|) + 1 && particles[..old(|particles|)] == old(particles) &&
                fresh(particles[old(|particles|)]) &&
                particles[old(|particles|)].Snap() == Launch(x, y, centerX, centerY, sqrt).value
    {
      var dx := Offset(x, centerX);
      var dy := Offset(y, centerY);
      var distance := Root(sqrt, SquaredDistance(dx, dy));
      Launched(x, y, centerX, centerY, sqrt, dx, dy, distance);
      if distance < 20.0 {
        return;
      }
      var speed := OrbitSpeed(distance, sqrt);
      var vx := Along(-dy, distance, speed);
      var vy := Along(dx, distance, speed);
      var p := new Particle.Full(x as real, y as real, 5, 10.0, vx, vy);
      Add(p);
    }

    /** `particles.add(p)` for a new particle of positive mass with an empty buffer. */
    method Add(p: Particle)
      requires Valid() && p !in particles && p.mass > 0.0 && p.ax == 0.0 && p.ay == 0.0
      modifies this`particles
      ensures Valid() && particles == old(particles) + [p]
    {
      Appended(particles, p);
      particles := particles + [p];
    }

    /** `repositionParticles`: with at least two particles, the first two become the central
        stars of `Stars`; no other particle and no mass or radius changes. */
    method RepositionParticles()
      requires Valid()
      modifies particles
      ensures Valid() && particles == old(particles)
      ensures |particles| >= 2 ==>
                (particles[0].Snap(), particles[1].Snap()) ==
                Stars(centerX, centerY, old(particles[0].Snap()), old(particles[1].Snap()))
      ensures forall k :: 0 <= k < |particles| && (k >= 2 || |particles| < 2) ==>
                particles[k].Snap() == old(particles[k].Snap())
    {
      if |particles| >= 2 {
        ghost var bs := Bodies(particles);
        ghost var s := Stars(centerX, centerY, bs[0], bs[1]);
        var p0, p1 := particles[0], particles[1];
        assert At(particles, 0) != At(particles, 1);
        p0.Place(Wrap32(centerX as int - ParticleOffset as int) as real, centerY as real, 0.0, 1.0);
        assert Quiet(particles);
        p1.Place(Wrap32(centerX as int + ParticleOffset as int) as real, centerY as real, 0.0, -1.0);
        assert Quiet(particles);
        ghost var after := bs[0 := s.0][1 := s.1];
        forall k | 2 <= k < |particles|
          ensures particles[k].Snap() == bs[k]
        {
          assert At(particles, k) != At(particles, 0) && At(particles, k) != At(particles, 1);
        }
        assert Mirrors(particles, after);
        SnapsAreBodies(particles, after);
        assert Kept(bs, after);
        KeptPositive(bs, after);
      }
    }

    /** One step of the inner loop of `collideParticles`: the pair's arithmetic is `Resolve`,
        whose result is written back into the two particle objects. */
    method CollidePair(p1: Particle, p2: Particle, merge: bool, sqrt: real -> real)
      requires p1 != p2 && p1.mass > 0.0 && p2.mass > 0.0
      modifies p1`x, p1`y, p1`vx, p1`vy, p2`x, p2`y, p2`vx, p2`vy
      ensures (p1.Snap(), p2.Snap()) == Resolve(old(p1.Snap()), old(p2.Snap()), merge, sqrt)
    {
      var r := Resolve(p1.Snap(), p2.Snap(), merge, sqrt);
      p1.Place(r.0.x, r.0.y, r.0.vx, r.0.vy);
      p2.Place(r.1.x, r.1.y, r.1.vx, r.1.vy);
    }

    /** `collideParticles`: every pair `(i, j)` with `i < j` is visited in order, the particle
        at `i` carrying the effect of the pairs already visited; the list itself and every
        mass stay. */
    method CollideParticles(sqrt: real -> real)
      requires Valid()
      modifies particles`x, particles`y, particles`vx, particles`vy
      ensures Valid() && particles == old(particles)
      ensures Bodies(particles) == CollidePass(old(Bodies(particles)), shouldMerge, sqrt)
    {
      ghost var bs := Bodies(particles);
      ghost var rule := CollideRule(shouldMerge, sqrt);
      CollideRuleResolves(shouldMerge, sqrt);
      ghost var target := CollidePass(bs, shouldMerge, sqrt);
      var i := 0;
      while i < |particles|
        invariant 0 <= i <= |particles|
        invariant Tracks(particles, bs) && CollideOuter(bs, i, rule) == target
      {
        bs := CollideFrom(i, shouldMerge, sqrt, rule, bs);
        i := i + 1;
      }
      SnapsAreBodies(particles, bs);
    }

    /** The inner loop of `collideParticles` for outer index `i`: `bs` mirrors the particles
        before the loop. */
    method CollideFrom(i: nat, merge: bool, sqrt: real -> real, ghost rule: PairRule, ghost bs: seq<Body>)
        returns (ghost next: seq<Body>)
      requires Resolves(rule, merge, sqrt) && i < |particles| && Tracks(particles, bs)
      modifies particles`x, particles`y, particles`vx, particles`vy
      ensures Tracks(particles, next) && next == CollideInner(bs, i, i + 1, rule)
    {
      next := bs;
      var j := i + 1;
      while j < |particles|
        invariant i < j <= |particles| && Tracks(particles, next)
        invariant next == CollideUpTo(bs, i, j, rule)
      {
        next := CollideAt(i, j, merge, sqrt, rule, next);
        j := j + 1;
      }
      UpToIsInner(bs, i, j, rule);
    }

    /** Step `(i, j)` of `collideParticles` on the list: the two particles are resolved and
        every other particle stays. */
    method CollideAt(i: nat, j: nat, merge: bool, sqrt: real -> real, ghost rule: PairRule, ghost bs: seq<Body>)
        returns (ghost next: seq<Body>)
      requires Resolves(rule, merge, sqrt) && i < j < |particles| && Tracks(particles, bs)
      modifies particles`x, particles`y, particles`vx, particles`vy
      ensures Tracks(particles, next) && next == Pair(bs, i, j, rule)
    {
      var p1, p2 := particles[i], particles[j];
      assert At(particles, i) != At(particles, j);
      CollidePair(p1, p2, merge, sqrt);
      assert Quiet(particles);
      forall k | 0 <= k < |particles| && k != i && k != j
        ensures particles[k].Snap() == bs[k]
      {
        assert At(particles, k) != At(particles, i) && At(particles, k) != At(particles, j);
      }
      ghost var r := Resolve(bs[i], bs[j], merge, sqrt);
      next := bs[i := r.0][j := r.1];
      assert Mirrors(particles, next);
      KeptPositive(bs, next);
    }

    /** `mergeParticles`: for each index `i`, every later particle that overlaps the
        particle read at `i` when the inner loop started is removed and slot `i` receives the
        merge of the two; after a merge the same index is visited again. */
    method MergeParticles(sqrt: real -> real, cbrt: real -> real)
      requires Valid()
      modifies this`particles
      ensures Valid()
      ensures Bodies(particles) == MergePass(old(Bodies(particles)), sqrt, cbrt)
    {
      var i := 0;
      while i < |particles|
        invariant 0 <= i <= |particles|
        invariant Valid()
        invariant MergeOuter(Bodies(particles), i, sqrt, cbrt) == MergePass(old(Bodies(particles)), sqrt, cbrt)
      {
        MergeInto(i, sqrt, cbrt);
        i := i + 1;
      }
    }

    /** The inner loop of `mergeParticles` for outer index `i`: `p1` is read once, before the
        loop. */
    method MergeInto(i: nat, sqrt: real -> real, cbrt: real -> real)
      requires Valid() && i < |particles|
      modifies this`particles
      ensures Valid()
      ensures Bodies(particles) == MergeInner(old(Bodies(particles)), old(Bodies(particles))[i], i, i + 1, sqrt, cbrt)
    {
      ghost var bs := Bodies(particles);
      ghost var target := MergeInner(bs, bs[i], i, i + 1, sqrt, cbrt);
      var p1 := particles[i];
      ghost var b1 := p1.Snap();
      var j := i + 1;
      while j < |particles|
        invariant i < j <= |particles|
        invariant Mirrors(particles, bs)
        invariant Distinct(particles) && Quiet(particles) && PositiveMasses(bs)
        invariant p1.Snap() == b1 && b1.mass > 0.0
        invariant MergeInner(bs, b1, i, j, sqrt, cbrt) == target
        decreases |particles| - j
      {
        var p2 := particles[j];
        if Overlap(p1.Snap(), p2.Snap(), sqrt) {
          var m := Merged(p1.Snap(), p2.Snap(), cbrt);
          var merged := new Particle.Full(m.x, m.y, m.radius, m.mass, m.vx, m.vy);
          Replace(i, j, merged, bs, b1, cbrt);
          MergeStep(bs, b1, i, j, sqrt, cbrt);
          bs := MergeAt(bs, b1, i, j, cbrt);
        } else {
          j := j + 1;
        }
      }
      SnapsAreBodies(particles, bs);
    }

    /** `particles.remove(j)` followed by `particles.set(i, q)`, for the particle `q` that
        merges `b1` with the removed one. */
    method Replace(i: nat, j: nat, q: Particle, ghost bs: seq<Body>, ghost b1: Body, ghost cbrt: real -> real)
      requires i < j < |particles| && Mirrors(particles, bs) && Distinct(particles) && Quiet(particles)
      requires q !in particles && q.ax == 0.0 && q.ay == 0.0
      requires b1.mass + bs[j].mass != 0.0 && q.Snap() == Merged(b1, bs[j], cbrt)
      modifies this`particles
      ensures particles == (old(particles)[..j] + old(particles)[j + 1..])[i := q]
      ensures Mirrors(particles, MergeAt(bs, b1, i, j, cbrt)) && Distinct(particles) && Quiet(particles)
    {
      ghost var before := particles;
      particles := particles[..j] + particles[j + 1..];
      particles := particles[i := q];
      Merging(before, i, j, q);
      SnapsAfterMerge(before, bs, b1, i, j, q, cbrt);
    }

    /** `updateParticles`, the tick on a panel of `width` by `height`: a quadtree over the
        bounding box of the particles, widened by `Margin`, receives every particle; its
        mass summaries are computed; every particle is accelerated by the tree's force and
        advanced and bounced (`Moved`); then collisions are handled. The particles must sit
        at distinct positions, which keeps every insertion finite. The new tree is kept in
        `quadTree`; `w` is the snapshot its summaries were computed from, and `bs` names the
        snapshot of the particles at the start of the tick. */
    method UpdateParticles(width: int32, height: int32, sqrt: real -> real, cbrt: real -> real, ghost bs: seq<Body>)
        returns (ghost w: seq<seq<Body>>)
      requires Valid() && IsSqrt(sqrt) && bs == Bodies(particles) && DistinctPositions(bs)
      modifies this`quadTree, this`particles, particles`x, particles`y, particles`vx, particles`vy, particles`ax, particles`ay
      ensures Valid() && quadTree != null && fresh(quadTree)
      ensures Planted(quadTree.nodes, quadTree.summaries, w, old(particles), bs)
      ensures Mirrors(particles, Collided(Moved(bs, quadTree.nodes, quadTree.summaries, width, height, sqrt),
                                          shouldMerge, sqrt, cbrt))
    {
      var tree;
      tree, w := Prepare(width, height, sqrt);
      HandleCollisions(sqrt, cbrt, Moved(bs, tree.nodes, tree.summaries, width, height, sqrt));
    }

    /** `updateParticles` up to the collisions: the tree is planted, then the force and
        motion loops run. */
    method Prepare(width: int32, height: int32, sqrt: real -> real) returns (tree: QuadTree, ghost w: seq<seq<Body>>)
      requires Valid() && IsSqrt(sqrt) && DistinctPositions(Bodies(particles))
      modifies this`quadTree, particles`x, particles`y, particles`vx, particles`vy, particles`ax, particles`ay
      ensures quadTree == tree && fresh(tree) && Planted(tree.nodes, tree.summaries, w, particles, old(Bodies(particles)))
      ensures Valid() && Mirrors(particles, Moved(old(Bodies(particles)), tree.nodes, tree.summaries, width, height, sqrt))
    {
      ghost var bs := Bodies(particles);
      tree, w := PlantTree(bs);
      Motion(width, height, tree, sqrt, bs);
    }

    /** The force and motion loops of `updateParticles`, on particles whose snapshot is `bs`. */
    method Motion(width: int32, height: int32, tree: QuadTree, sqrt: real -> real, ghost bs: seq<Body>)
      requires Valid() && Mirrors(particles, bs) && PositiveMasses(bs) && IsSqrt(sqrt)
      requires 0 < |tree.nodes| == |tree.summaries| && Structured(tree.nodes)
      modifies particles`x, particles`y, particles`vx, particles`vy, particles`ax, particles`ay
      ensures Valid() && Mirrors(particles, Moved(bs, tree.nodes, tree.summaries, width, height, sqrt))
    {
      SnapsAreBodies(particles, bs);
      ApplyForces(tree, sqrt, bs);
      Advance(width, height, tree, sqrt, bs);
    }

    /** The tree of the tick: built over `Boundary` of the particles, whose snapshot is `bs`,
        from every particle in list order, then summarized from the snapshot `w` of its
        nodes, and kept in `quadTree`. */
    method PlantTree(ghost bs: seq<Body>) returns (tree: QuadTree, ghost w: seq<seq<Body>>)
      requires Mirrors(particles, bs) && DistinctPositions(bs)
      modifies this`quadTree
      ensures quadTree == tree && fresh(tree) && Planted(tree.nodes, tree.summaries, w, particles, bs)
    {
      var boundary := Bounds(bs);
      BoundaryCovers(bs);
      ghost var delta := SpacingExists(bs);
      tree := BuildTree(boundary, bs, delta);
      w := Snapshots(tree.nodes);
      RootMirrors(tree.nodes, w, particles, bs);
      tree.CalculateMass(0, w);
      quadTree := tree;
    }

    /** The bounds search of `updateParticles`, widened by the margin. */
    method Bounds(ghost bs: seq<Body>) returns (r: Rect)
      requires Mirrors(particles, bs)
      ensures r == Boundary(bs)
    {
      var minX, minY := DoubleMaxValue, DoubleMaxValue;
      var maxX, maxY := DoubleMinValue, DoubleMinValue;
      var k := 0;
      while k < |particles|
        invariant 0 <= k <= |particles|
        invariant minX == Lowest(bs[..k], PosX) && minY == Lowest(bs[..k], PosY)
        invariant maxX == Highest(bs[..k], PosX) && maxY == Highest(bs[..k], PosY)
      {
        var p := particles[k];
        assert bs[..k + 1] == bs[..k] + [bs[k]];
        SearchSnoc(bs[..k], bs[k], PosX);
        SearchSnoc(bs[..k], bs[k], PosY);
        minX := Min(minX, p.x);
        minY := Min(minY, p.y);
        maxX := Max(maxX, p.x);
        maxY := Max(maxY, p.y);
        k := k + 1;
      }
      assert bs[..k] == bs;
      minX := minX - Margin;
      minY := minY - Margin;
      maxX := maxX + Margin;
      maxY := maxY + Margin;
      r := Rect(minX, minY, maxX - minX, maxY - minY);
    }

    /** The quadtree of capacity `Capacity` over `boundary`, into which every particle is
        inserted in list order. */
    method BuildTree(boundary: Rect, ghost bs: seq<Body>, ghost delta: real) returns (tree: QuadTree)
      requires Mirrors(particles, bs) && delta > 0.0 && Spaced(bs, delta) && Covers(boundary, bs)
      ensures fresh(tree) && 0 < |tree.nodes| == |tree.summaries| && Structured(tree.nodes)
      ensures tree.nodes[0].boundary == boundary && Held(tree.nodes) == multiset(particles)
      ensures multiset(Below(tree.nodes, 0)) == multiset(particles)
    {
      tree := new QuadTree(boundary, Capacity);
      Seeded(boundary, Capacity, delta);
      SeededShape(boundary, Capacity);
      assert particles[..0] == [];
      var k := 0;
      while k < |particles|
        invariant 0 <= k <= |particles| && fresh(tree)
        invariant 0 < |tree.nodes| == |tree.summaries| && tree.nodes[0].boundary == boundary
        invariant Structured(tree.nodes) && Separated(tree.nodes, delta) && Placed(tree.nodes)
        invariant Held(tree.nodes) == multiset(particles[..k])
        invariant Shaped(tree.nodes, tree.owners) && Settled(tree.nodes, tree.owners, 0)
      {
        ApartFromEarlier(particles, bs, k, tree.nodes, delta);
        ghost var before, was := tree.nodes, tree.owners;
        var ok := tree.Insert(0, particles[k], delta);
        SettledKept(before, was, tree.nodes, tree.owners, 0);
        PrefixStep(particles, k);
        k := k + 1;
      }
      assert particles[..k] == particles;
      StructuredBare(tree.nodes);
      Rooted(tree.nodes, tree.owners);
    }

    /** The force loop of `updateParticles`: the tree's force is added to the empty buffer of
        every particle, whose snapshot is `bs`. */
    method ApplyForces(tree: QuadTree, sqrt: real -> real, ghost bs: seq<Body>)
      requires IsSqrt(sqrt) && Structured(tree.nodes)
      requires PulledUpTo(particles, bs, tree.nodes, tree.summaries, sqrt, 0)
      modifies particles`ax, particles`ay
      ensures PulledUpTo(particles, bs, tree.nodes, tree.summaries, sqrt, |particles|)
    {
      var k := 0;
      while k < |particles|
        invariant k <= |particles| && PulledUpTo(particles, bs, tree.nodes, tree.summaries, sqrt, k)
      {
        PullAt(tree, sqrt, bs, k);
        k := k + 1;
      }
    }

    /** One step of the force loop: `quadTree.calculateForce(p, G, THETA)` for particle `k`. */
    method PullAt(tree: QuadTree, sqrt: real -> real, ghost bs: seq<Body>, k: nat)
      requires IsSqrt(sqrt) && Structured(tree.nodes) && k < |particles|
      requires PulledUpTo(particles, bs, tree.nodes, tree.summaries, sqrt, k)
      modifies particles`ax, particles`ay
      ensures PulledUpTo(particles, bs, tree.nodes, tree.summaries, sqrt, k + 1)
    {
      var p := particles[k];
      tree.CalculateForce(0, p, G, Theta, sqrt);
      forall m | 0 <= m < |particles| && m != k
        ensures particles[m].ax == old(particles[m].ax) && particles[m].ay == old(particles[m].ay)
      {
        assert At(particles, m) != At(particles, k);
      }
    }

    /** The motion loop of `updateParticles`: every particle takes its Euler step with the
        acceleration in its buffer, which empties the buffer, and bounces off the walls. */
    method Advance(width: int32, height: int32, ghost tree: QuadTree, ghost sqrt: real -> real, ghost bs: seq<Body>)
      requires PulledUpTo(particles, bs, tree.nodes, tree.summaries, sqrt, |particles|)
      modifies particles`x, particles`y, particles`vx, particles`vy, particles`ax, particles`ay
      ensures Valid()
      ensures Bodies(particles) == Moved(bs, tree.nodes, tree.summaries, width, height, sqrt)
    {
      ghost var target := Moved(bs, tree.nodes, tree.summaries, width, height, sqrt);
      MovedEach(bs, tree.nodes, tree.summaries, width, height, sqrt);
      assert MovedUpTo(particles, target, width, height, 0);
      var k := 0;
      while k < |particles|
        invariant k <= |particles| && MovedUpTo(particles, target, width, height, k)
      {
        MoveAt(width, height, target, k);
        k := k + 1;
      }
      assert Mirrors(particles, target);
      SnapsAreBodies(particles, target);
    }

    /** One step of the motion loop, for particle `k`. */
    method MoveAt(width: int32, height: int32, ghost target: seq<Body>, k: nat)
      requires k < |particles| && MovedUpTo(particles, target, width, height, k)
      modifies particles`x, particles`y, particles`vx, particles`vy, particles`ax, particles`ay
      ensures MovedUpTo(particles, target, width, height, k + 1)
    {
      var p := particles[k];
      AdvanceOne(p, width, height);
      forall m | 0 <= m < |particles| && m != k
        ensures particles[m].Snap() == old(particles[m].Snap())
        ensures particles[m].ax == old(particles[m].ax) && particles[m].ay == old(particles[m].ay)
      {
        assert At(particles, m) != At(particles, k);
      }
    }

    /** One particle of the motion loop: `p.update(TIME_STEP)`, then the bounce. */
    method AdvanceOne(p: Particle, width: int32, height: int32)
      modifies p`x, p`y, p`vx, p`vy, p`ax, p`ay
      ensures p.Snap() == Advanced(old(p.Snap()), old(p.ax), old(p.ay), width, height)
      ensures p.ax == 0.0 && p.ay == 0.0
    {
      p.Update(TimeStep);
      if p.x < 0.0 || p.x > width as real {
        p.vx := -p.vx * WallDamping;
        p.x := Max(0.0, Min(p.x, width as real));
      }
      if p.y < 0.0 || p.y > height as real {
        p.vy := -p.vy * WallDamping;
        p.y := Max(0.0, Min(p.y, height as real));
      }
    }

    /** `handleCollisions`: the merge pass when merging is on, the collision pass otherwise. */
    method HandleCollisions(sqrt: real -> real, cbrt: real -> real, ghost bs: seq<Body>)
      requires Valid() && Mirrors(particles, bs) && PositiveMasses(bs)
      modifies this`particles, particles`x, particles`y, particles`vx, particles`vy
      ensures Valid()
      ensures Mirrors(particles, Collided(bs, shouldMerge, sqrt, cbrt))
      ensures !shouldMerge ==> particles == old(particles)
    {
      SnapsAreBodies(particles, bs);
      if shouldMerge {
        MergeParticles(sqrt, cbrt);
      } else {
        CollideParticles(sqrt);
      }
    }
  }
}
