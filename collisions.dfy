/** The two collision passes of `src/Two/ParticleSimulationClean.java`, stated on snapshots of
    the particle list: `collideParticles`, which resolves every overlapping pair with an
    impulse and a penetration correction, and `mergeParticles`, which replaces an overlapping
    pair by one particle. */
module Collisions {
  import opened Numerics
  import opened Particles

  /** The coefficient of restitution of `collideParticles`. */
  const Restitution: real := 0.8

  /** The sum of two radii, taken in Java `int` arithmetic. */
  function Reach(p1: Body, p2: Body): int32
  {
    Wrap32(p1.radius as int + p2.radius as int)
  }

  /** The distance between the centres of two particles. */
  function Separation(p1: Body, p2: Body, sqrt: real -> real): real
  {
    Root(sqrt, SquaredDistance(p2.x - p1.x, p2.y - p1.y))
  }

  /** With a true square root, the separation is a distance: non-negative, and its square is
      the squared distance of the centres. */
  lemma SeparationSquares(p1: Body, p2: Body, sqrt: real -> real)
    requires IsSqrt(sqrt)
    ensures Separation(p1, p2, sqrt) >= 0.0
    ensures Separation(p1, p2, sqrt) * Separation(p1, p2, sqrt) == SquaredDistance(p2.x - p1.x, p2.y - p1.y)
  {
    Distance(sqrt, p2.x - p1.x, p2.y - p1.y);
  }

  /** Two particles overlap when their centres are closer than the sum of their radii. */
  predicate Overlap(p1: Body, p2: Body, sqrt: real -> real)
  {
    Separation(p1, p2, sqrt) < Reach(p1, p2) as real
  }

  /** The velocity of `p2` relative to `p1` along the direction `(nx, ny)`. */
  function VelAlongNormal(p1: Body, p2: Body, nx: real, ny: real): real
  {
    (p2.vx - p1.vx) * nx + (p2.vy - p1.vy) * ny
  }

  // Collisions.

  /** Half the depth by which two particles at distance `distance` overlap. */
  function Penetration(p1: Body, p2: Body, distance: real): real
  {
    (Reach(p1, p2) as real - distance) * 0.5
  }

  /** The size of the impulse that leaves the pair with `Restitution` times its approach
      speed along the normal. */
  function ImpulseScalar(p1: Body, p2: Body, nx: real, ny: real): real
    requires p1.mass > 0.0 && p2.mass > 0.0
  {
    -(1.0 + Restitution) * VelAlongNormal(p1, p2, nx, ny) / (1.0 / p1.mass + 1.0 / p2.mass)
  }

  /** The resolution of a pair along the normal `(nx, ny)`: the impulse `s` along the normal
      is taken from `p1` and given to `p2`, and the correction `c` along the normal moves the
      two apart, each by the other's share of the mass. */
  function Exchange(p1: Body, p2: Body, s: real, c: real, nx: real, ny: real): (r: (Body, Body))
    requires p1.mass > 0.0 && p2.mass > 0.0
    ensures r.0.mass == p1.mass && r.1.mass == p2.mass
    ensures r.0.radius == p1.radius && r.1.radius == p2.radius
  {
    (Pushed(p1, -(s * nx), -(s * ny), -((nx * c) * Share(p2, p1)), -((ny * c) * Share(p2, p1))),
     Pushed(p2, s * nx, s * ny, (nx * c) * Share(p1, p2), (ny * c) * Share(p1, p2)))
  }

  /** The fraction of the pair's total mass that `p` carries. */
  function Share(p: Body, other: Body): real
    requires p.mass > 0.0 && other.mass > 0.0
  {
    p.mass / (p.mass + other.mass)
  }

  /** A particle after it receives the impulse `(impulseX, impulseY)` and is moved by
      `(dx, dy)`. */
  function Pushed(p: Body, impulseX: real, impulseY: real, dx: real, dy: real): (q: Body)
    requires p.mass != 0.0
    ensures q.mass == p.mass && q.radius == p.radius
  {
    p.(vx := p.vx + impulseX / p.mass, vy := p.vy + impulseY / p.mass, x := p.x + dx, y := p.y + dy)
  }

  /** An impulse adds itself to the momentum, and a move adds itself, weighted by the mass, to
      the mass moment. */
  lemma PushedMoves(p: Body, ix: real, iy: real, dx: real, dy: real)
    requires p.mass != 0.0
    ensures MomentumX(Pushed(p, ix, iy, dx, dy)) == MomentumX(p) + ix
    ensures MomentumY(Pushed(p, ix, iy, dx, dy)) == MomentumY(p) + iy
    ensures MomentX(Pushed(p, ix, iy, dx, dy)) == MomentX(p) + dx * p.mass
    ensures MomentY(Pushed(p, ix, iy, dx, dy)) == MomentY(p) + dy * p.mass
  {
    DivMul(ix, p.mass);
    DivMul(iy, p.mass);
  }

  /** One step of the inner loop of `collideParticles`, for the particle `p1` of the outer loop
      and a later particle `p2`. A pair that does not overlap, or any pair while merging is
      on, is left alone, and so is a pair already moving apart along the normal (a relative
      normal velocity of exactly zero is resolved). A pair at distance zero is left alone. */
  function Resolve(p1: Body, p2: Body, shouldMerge: bool, sqrt: real -> real): (r: (Body, Body))
    requires p1.mass > 0.0 && p2.mass > 0.0
    ensures r.0.mass == p1.mass && r.1.mass == p2.mass
    ensures r.0.radius == p1.radius && r.1.radius == p2.radius
    ensures shouldMerge || !Overlap(p1, p2, sqrt) || Separation(p1, p2, sqrt) == 0.0 ==> r == (p1, p2)
    ensures (!shouldMerge && Overlap(p1, p2, sqrt) && Separation(p1, p2, sqrt) != 0.0 &&
             VelAlongNormal(p1, p2, Normal(p1, p2, sqrt).0, Normal(p1, p2, sqrt).1) > 0.0) ==> r == (p1, p2)
    ensures (!shouldMerge && Overlap(p1, p2, sqrt) && Separation(p1, p2, sqrt) != 0.0 &&
             VelAlongNormal(p1, p2, Normal(p1, p2, sqrt).0, Normal(p1, p2, sqrt).1) <= 0.0) ==>
              r == Exchange(p1, p2, ImpulseScalar(p1, p2, Normal(p1, p2, sqrt).0, Normal(p1, p2, sqrt).1),
                            Penetration(p1, p2, Separation(p1, p2, sqrt)), Normal(p1, p2, sqrt).0, Normal(p1, p2, sqrt).1)
  {
    var distance := Separation(p1, p2, sqrt);
    if !(distance < Reach(p1, p2) as real && !shouldMerge) || distance == 0.0 then (p1, p2)
    else
      var n := Normal(p1, p2, sqrt);
      if VelAlongNormal(p1, p2, n.0, n.1) > 0.0 then (p1, p2)
      else Exchange(p1, p2, ImpulseScalar(p1, p2, n.0, n.1), Penetration(p1, p2, distance), n.0, n.1)
  }

  /** An exchange keeps the pair's total momentum, since the impulse is applied with opposite
      signs, and its mass-weighted centroid, since each particle moves by the other's share
      of the mass. */
  lemma ExchangeConserves(p1: Body, p2: Body, s: real, c: real, nx: real, ny: real)
    requires p1.mass > 0.0 && p2.mass > 0.0
    ensures MomentumX(Exchange(p1, p2, s, c, nx, ny).0) + MomentumX(Exchange(p1, p2, s, c, nx, ny).1)
         == MomentumX(p1) + MomentumX(p2)
    ensures MomentumY(Exchange(p1, p2, s, c, nx, ny).0) + MomentumY(Exchange(p1, p2, s, c, nx, ny).1)
         == MomentumY(p1) + MomentumY(p2)
    ensures MomentX(Exchange(p1, p2, s, c, nx, ny).0) + MomentX(Exchange(p1, p2, s, c, nx, ny).1)
         == MomentX(p1) + MomentX(p2)
    ensures MomentY(Exchange(p1, p2, s, c, nx, ny).0) + MomentY(Exchange(p1, p2, s, c, nx, ny).1)
         == MomentY(p1) + MomentY(p2)
  {
    ExchangeMomentum(p1, p2, s, c, nx, ny);
    ExchangeMomentX(p1, p2, s, c, nx, ny);
    ExchangeMomentY(p1, p2, s, c, nx, ny);
  }

  lemma ExchangeMomentum(p1: Body, p2: Body, s: real, c: real, nx: real, ny: real)
    requires p1.mass > 0.0 && p2.mass > 0.0
    ensures MomentumX(Exchange(p1, p2, s, c, nx, ny).0) + MomentumX(Exchange(p1, p2, s, c, nx, ny).1)
         == MomentumX(p1) + MomentumX(p2)
    ensures MomentumY(Exchange(p1, p2, s, c, nx, ny).0) + MomentumY(Exchange(p1, p2, s, c, nx, ny).1)
         == MomentumY(p1) + MomentumY(p2)
  {
    ExchangeParts(p1, p2, s, c, nx, ny);
    PushedMoves(p1, -(s * nx), -(s * ny), -((nx * c) * Share(p2, p1)), -((ny * c) * Share(p2, p1)));
    PushedMoves(p2, s * nx, s * ny, (nx * c) * Share(p1, p2), (ny * c) * Share(p1, p2));
  }

  lemma ExchangeMomentX(p1: Body, p2: Body, s: real, c: real, nx: real, ny: real)
    requires p1.mass > 0.0 && p2.mass > 0.0
    ensures MomentX(Exchange(p1, p2, s, c, nx, ny).0) + MomentX(Exchange(p1, p2, s, c, nx, ny).1)
         == MomentX(p1) + MomentX(p2)
  {
    ExchangeParts(p1, p2, s, c, nx, ny);
    PushedMoves(p1, -(s * nx), -(s * ny), -((nx * c) * Share(p2, p1)), -((ny * c) * Share(p2, p1)));
    PushedMoves(p2, s * nx, s * ny, (nx * c) * Share(p1, p2), (ny * c) * Share(p1, p2));
    Shares(nx * c, p1, p2);
  }

  lemma ExchangeMomentY(p1: Body, p2: Body, s: real, c: real, nx: real, ny: real)
    requires p1.mass > 0.0 && p2.mass > 0.0
    ensures MomentY(Exchange(p1, p2, s, c, nx, ny).0) + MomentY(Exchange(p1, p2, s, c, nx, ny).1)
         == MomentY(p1) + MomentY(p2)
  {
    ExchangeParts(p1, p2, s, c, nx, ny);
    PushedMoves(p1, -(s * nx), -(s * ny), -((nx * c) * Share(p2, p1)), -((ny * c) * Share(p2, p1)));
    PushedMoves(p2, s * nx, s * ny, (nx * c) * Share(p1, p2), (ny * c) * Share(p1, p2));
    Shares(ny * c, p1, p2);
  }

  lemma ExchangeParts(p1: Body, p2: Body, s: real, c: real, nx: real, ny: real)
    requires p1.mass > 0.0 && p2.mass > 0.0
    ensures Exchange(p1, p2, s, c, nx, ny).0
         == Pushed(p1, -(s * nx), -(s * ny), -((nx * c) * Share(p2, p1)), -((ny * c) * Share(p2, p1)))
    ensures Exchange(p1, p2, s, c, nx, ny).1
         == Pushed(p2, s * nx, s * ny, (nx * c) * Share(p1, p2), (ny * c) * Share(p1, p2))
  {
  }

  /** Moving each of two particles by the other's share of the mass, in opposite directions,
      leaves their mass moment unchanged. */
  lemma Shares(c: real, p1: Body, p2: Body)
    requires p1.mass > 0.0 && p2.mass > 0.0
    ensures -(c * Share(p2, p1)) * p1.mass + c * Share(p1, p2) * p2.mass == 0.0
  {
    DivMul(p2.mass * p1.mass, p2.mass + p1.mass);
    DivMul(p1.mass * p2.mass, p1.mass + p2.mass);
  }

  /** An exchange changes the relative velocity along its normal by the impulse's component
      along it times the sum of the inverse masses. */
  lemma ExchangeRelative(p1: Body, p2: Body, s: real, c: real, nx: real, ny: real)
    requires p1.mass > 0.0 && p2.mass > 0.0
    ensures VelAlongNormal(Exchange(p1, p2, s, c, nx, ny).0, Exchange(p1, p2, s, c, nx, ny).1, nx, ny)
         == VelAlongNormal(p1, p2, nx, ny) + ((s * nx) * nx + (s * ny) * ny) * (1.0 / p1.mass + 1.0 / p2.mass)
  {
    ExchangeVelocities(p1, p2, s, c, nx, ny);
    Relative(p1, p2, Exchange(p1, p2, s, c, nx, ny).0, Exchange(p1, p2, s, c, nx, ny).1, s * nx, s * ny, nx, ny);
  }

  /** The velocities after an exchange. */
  lemma ExchangeVelocities(p1: Body, p2: Body, s: real, c: real, nx: real, ny: real)
    requires p1.mass > 0.0 && p2.mass > 0.0
    ensures Exchange(p1, p2, s, c, nx, ny).0.vx == p1.vx + (-(s * nx)) / p1.mass
    ensures Exchange(p1, p2, s, c, nx, ny).0.vy == p1.vy + (-(s * ny)) / p1.mass
    ensures Exchange(p1, p2, s, c, nx, ny).1.vx == p2.vx + (s * nx) / p2.mass
    ensures Exchange(p1, p2, s, c, nx, ny).1.vy == p2.vy + (s * ny) / p2.mass
  {
  }

  /** The arithmetic of `ExchangeRelative`, on the velocities before (`b1`, `b2`) and after
      (`c1`, `c2`) the impulse `(ix, iy)`. */
  lemma Relative(b1: Body, b2: Body, c1: Body, c2: Body, ix: real, iy: real, nx: real, ny: real)
    requires b1.mass > 0.0 && b2.mass > 0.0
    requires c1.vx == b1.vx + (-ix) / b1.mass && c1.vy == b1.vy + (-iy) / b1.mass
    requires c2.vx == b2.vx + ix / b2.mass && c2.vy == b2.vy + iy / b2.mass
    ensures VelAlongNormal(c1, c2, nx, ny)
         == VelAlongNormal(b1, b2, nx, ny) + (ix * nx + iy * ny) * (1.0 / b1.mass + 1.0 / b2.mass)
  {
    Spread(ix, b1.mass, b2.mass);
    Spread(iy, b1.mass, b2.mass);
  }

  /** Along a unit normal the impulse of `collideParticles`, with any correction, reverses the
      relative normal velocity and scales it by the coefficient of restitution. */
  lemma ImpulseRestitutes(p1: Body, p2: Body, c: real, nx: real, ny: real)
    requires p1.mass > 0.0 && p2.mass > 0.0 && nx * nx + ny * ny == 1.0
    ensures VelAlongNormal(Exchange(p1, p2, ImpulseScalar(p1, p2, nx, ny), c, nx, ny).0,
                           Exchange(p1, p2, ImpulseScalar(p1, p2, nx, ny), c, nx, ny).1, nx, ny)
         == -Restitution * VelAlongNormal(p1, p2, nx, ny)
  {
    ExchangeRelative(p1, p2, ImpulseScalar(p1, p2, nx, ny), c, nx, ny);
    Restitutes(VelAlongNormal(p1, p2, nx, ny), ImpulseScalar(p1, p2, nx, ny), 1.0 / p1.mass + 1.0 / p2.mass,
               nx, ny);
  }

  /** The arithmetic of `ImpulseRestitutes`. */
  lemma Restitutes(van: real, s: real, spread: real, nx: real, ny: real)
    requires spread > 0.0 && s == -(1.0 + Restitution) * van / spread && nx * nx + ny * ny == 1.0
    ensures van + ((s * nx) * nx + (s * ny) * ny) * spread == -Restitution * van
  {
    assert (s * nx) * nx + (s * ny) * ny == s * (nx * nx + ny * ny) == s;
    DivMul(-(1.0 + Restitution) * van, spread);
  }

  /** An impulse applied to both particles changes their relative velocity by the impulse
      times the sum of the inverse masses. */
  lemma Spread(impulse: real, m1: real, m2: real)
    requires m1 > 0.0 && m2 > 0.0
    ensures impulse / m2 - (-impulse) / m1 == impulse * (1.0 / m1 + 1.0 / m2)
  {
  }

  /** The normal of a pair at a positive distance is a unit vector. */
  lemma UnitNormal(dx: real, dy: real, distance: real)
    requires distance > 0.0 && distance * distance == SquaredDistance(dx, dy)
    ensures (dx / distance) * (dx / distance) + (dy / distance) * (dy / distance) == 1.0
  {
    MulFrac(dx, distance, dx, distance);
    MulFrac(dy, distance, dy, distance);
    Normalized((dx / distance) * (dx / distance), (dy / distance) * (dy / distance), dx * dx, dy * dy,
               distance, distance);
  }

  /** Two shares of a positive whole `d * e` sum to one. The whole is passed as two factors so
      that the solver never meets a square bound to a variable. */
  lemma Normalized(a: real, b: real, x: real, y: real, d: real, e: real)
    requires d * e > 0.0 && a == x / (d * e) && b == y / (d * e) && x + y == d * e
    ensures a + b == 1.0
  {
    DivSum(x, y, d * e);
  }

  /** The direction from `p1` to `p2`, or zero for coincident particles. */
  function Normal(p1: Body, p2: Body, sqrt: real -> real): (real, real)
  {
    var distance := Separation(p1, p2, sqrt);
    if distance == 0.0 then (0.0, 0.0)
    else ((p2.x - p1.x) / distance, (p2.y - p1.y) / distance)
  }

  /** The normal of a pair at a positive distance is a unit vector. */
  lemma NormalIsUnit(p1: Body, p2: Body, sqrt: real -> real)
    requires IsSqrt(sqrt) && Separation(p1, p2, sqrt) > 0.0
    ensures Normal(p1, p2, sqrt).0 * Normal(p1, p2, sqrt).0 + Normal(p1, p2, sqrt).1 * Normal(p1, p2, sqrt).1 == 1.0
  {
    SeparationSquares(p1, p2, sqrt);
    UnitNormal(p2.x - p1.x, p2.y - p1.y, Separation(p1, p2, sqrt));
  }

  /** A pair keeps its total momentum and its mass-weighted centroid through `Resolve`. */
  lemma ResolveConserves(p1: Body, p2: Body, shouldMerge: bool, sqrt: real -> real)
    requires p1.mass > 0.0 && p2.mass > 0.0
    ensures MomentumX(Resolve(p1, p2, shouldMerge, sqrt).0) + MomentumX(Resolve(p1, p2, shouldMerge, sqrt).1)
         == MomentumX(p1) + MomentumX(p2)
    ensures MomentumY(Resolve(p1, p2, shouldMerge, sqrt).0) + MomentumY(Resolve(p1, p2, shouldMerge, sqrt).1)
         == MomentumY(p1) + MomentumY(p2)
    ensures MomentX(Resolve(p1, p2, shouldMerge, sqrt).0) + MomentX(Resolve(p1, p2, shouldMerge, sqrt).1)
         == MomentX(p1) + MomentX(p2)
    ensures MomentY(Resolve(p1, p2, shouldMerge, sqrt).0) + MomentY(Resolve(p1, p2, shouldMerge, sqrt).1)
         == MomentY(p1) + MomentY(p2)
  {
    if Resolve(p1, p2, shouldMerge, sqrt) != (p1, p2) {
      ExchangeConserves(p1, p2, ImpulseScalar(p1, p2, Normal(p1, p2, sqrt).0, Normal(p1, p2, sqrt).1),
                        Penetration(p1, p2, Separation(p1, p2, sqrt)), Normal(p1, p2, sqrt).0, Normal(p1, p2, sqrt).1);
    }
  }

  /** An overlapping pair at a positive distance, while merging is off, is changed by
      `Resolve` exactly when it is not moving apart along the normal: a relative normal
      velocity of zero is resolved. */
  lemma ResolveGuard(p1: Body, p2: Body, shouldMerge: bool, sqrt: real -> real)
    requires IsSqrt(sqrt) && p1.mass > 0.0 && p2.mass > 0.0
    requires !shouldMerge && Overlap(p1, p2, sqrt) && Separation(p1, p2, sqrt) != 0.0
    ensures Resolve(p1, p2, shouldMerge, sqrt) == (p1, p2) <==>
            VelAlongNormal(p1, p2, Normal(p1, p2, sqrt).0, Normal(p1, p2, sqrt).1) > 0.0
  {
    var n := Normal(p1, p2, sqrt);
    if VelAlongNormal(p1, p2, n.0, n.1) <= 0.0 {
      SeparationSquares(p1, p2, sqrt);
      NormalIsUnit(p1, p2, sqrt);
      var c := Penetration(p1, p2, Separation(p1, p2, sqrt));
      var share := Share(p2, p1);
      assert c > 0.0 && share > 0.0;
      Displaced(n.0, n.1, c, share);
    }
  }

  /** A correction `c * share` along a unit direction moves the particle. */
  lemma Displaced(nx: real, ny: real, c: real, share: real)
    requires nx * nx + ny * ny == 1.0 && c > 0.0 && share > 0.0
    ensures (nx * c) * share != 0.0 || (ny * c) * share != 0.0
  {
    if nx == 0.0 {
      assert ny * ny == 1.0;
    }
  }

  /** A pair that `Resolve` changes is apart by a positive distance, and its relative
      velocity along the normal is reversed and scaled by the coefficient of restitution. */
  lemma ResolveRestitutes(p1: Body, p2: Body, shouldMerge: bool, sqrt: real -> real)
    requires IsSqrt(sqrt) && p1.mass > 0.0 && p2.mass > 0.0
    requires Resolve(p1, p2, shouldMerge, sqrt) != (p1, p2)
    ensures Separation(p1, p2, sqrt) > 0.0
    ensures VelAlongNormal(Resolve(p1, p2, shouldMerge, sqrt).0, Resolve(p1, p2, shouldMerge, sqrt).1,
                           Normal(p1, p2, sqrt).0, Normal(p1, p2, sqrt).1)
         == -Restitution * VelAlongNormal(p1, p2, Normal(p1, p2, sqrt).0, Normal(p1, p2, sqrt).1)
  {
    SeparationSquares(p1, p2, sqrt);
    NormalIsUnit(p1, p2, sqrt);
    ImpulseRestitutes(p1, p2, Penetration(p1, p2, Separation(p1, p2, sqrt)), Normal(p1, p2, sqrt).0,
                      Normal(p1, p2, sqrt).1);
  }

  /** A rule for one pair of the particle list: the two particles once the pair is visited. */
  type PairRule = (Body, Body) -> (Body, Body)

  /** The rule of the inner loop of `collideParticles`. In a list of positive masses every
      pair passes the guard, which only makes the rule total. */
  function CollideRule(shouldMerge: bool, sqrt: real -> real): PairRule
  {
    (a: Body, b: Body) => if a.mass > 0.0 && b.mass > 0.0 then Resolve(a, b, shouldMerge, sqrt) else (a, b)
  }

  /** `b` has the mass and the radius of `a`. */
  predicate Like(a: Body, b: Body)
  {
    b.mass == a.mass && b.radius == a.radius
  }

  /** The snapshots keep their length, and each particle its mass and radius. */
  ghost predicate Kept(a: seq<Body>, b: seq<Body>)
  {
    |a| == |b| && forall k :: 0 <= k < |a| ==> Like(a[k], b[k])
  }

  /** A rule that keeps the mass and the radius of both particles. */
  ghost predicate KeepsBodies(rule: PairRule)
  {
    forall a, b :: Like(a, rule(a, b).0) && Like(b, rule(a, b).1)
  }

  /** The mass, momentum and mass moment of a pair. */
  function PairTotals(a: Body, b: Body): (real, real, real, real, real)
  {
    (Mass(a) + Mass(b), MomentumX(a) + MomentumX(b), MomentumY(a) + MomentumY(b),
     MomentX(a) + MomentX(b), MomentY(a) + MomentY(b))
  }

  /** A rule that keeps the totals of every pair it is given. */
  ghost predicate ConservesPairs(rule: PairRule)
  {
    forall a, b :: PairTotals(rule(a, b).0, rule(a, b).1) == PairTotals(a, b)
  }

  /** The list once pair `(i, j)` is visited. */
  function Pair(bs: seq<Body>, i: nat, j: nat, rule: PairRule): (r: seq<Body>)
    requires i < j < |bs|
    ensures |r| == |bs|
  {
    bs[i := rule(bs[i], bs[j]).0][j := rule(bs[i], bs[j]).1]
  }

  /** The inner loop of `collideParticles` for outer index `i`, from inner index `j` on. The
      particle at `i` is read afresh at every step, so it carries the effect of the pairs
      already visited. */
  function CollideInner(bs: seq<Body>, i: nat, j: nat, rule: PairRule): (r: seq<Body>)
    requires i < j <= |bs|
    ensures |r| == |bs|
    decreases |bs| - j
  {
    if j == |bs| then bs else CollideInner(Pair(bs, i, j, rule), i, j + 1, rule)
  }

  /** The pairs `(i, i + 1)` up to `(i, j - 1)` of the inner loop, applied in order. */
  function CollideUpTo(bs: seq<Body>, i: nat, j: nat, rule: PairRule): (r: seq<Body>)
    requires i < j <= |bs|
    ensures |r| == |bs|
    decreases j
  {
    if j == i + 1 then bs else Pair(CollideUpTo(bs, i, j - 1, rule), i, j - 1, rule)
  }

  /** Running the inner loop to the end is applying all its pairs. */
  lemma UpToIsInner(bs: seq<Body>, i: nat, n: nat, rule: PairRule)
    requires i < n == |bs|
    ensures CollideUpTo(bs, i, n, rule) == CollideInner(bs, i, i + 1, rule)
  {
    UpToThenInner(bs, i, n, rule);
  }

  lemma {:induction false} UpToThenInner(bs: seq<Body>, i: nat, j: nat, rule: PairRule)
    requires i < j <= |bs|
    ensures CollideInner(CollideUpTo(bs, i, j, rule), i, j, rule) == CollideInner(bs, i, i + 1, rule)
    decreases j
  {
    if j > i + 1 {
      UpToThenInner(bs, i, j - 1, rule);
    }
  }

  /** The outer loop of `collideParticles`, from index `i` on. */
  function CollideOuter(bs: seq<Body>, i: nat, rule: PairRule): (r: seq<Body>)
    requires i <= |bs|
    ensures |r| == |bs|
    decreases |bs| - i
  {
    if i == |bs| then bs else CollideOuter(CollideInner(bs, i, i + 1, rule), i + 1, rule)
  }

  /** The whole of `collideParticles`. */
  function CollidePass(bs: seq<Body>, shouldMerge: bool, sqrt: real -> real): (r: seq<Body>)
    ensures |r| == |bs|
  {
    CollideOuter(bs, 0, CollideRule(shouldMerge, sqrt))
  }

  /** `rule` resolves every pair of positive masses as `Resolve` does. */
  ghost predicate Resolves(rule: PairRule, shouldMerge: bool, sqrt: real -> real)
  {
    forall a: Body, b: Body {:trigger Resolve(a, b, shouldMerge, sqrt)} ::
      a.mass > 0.0 && b.mass > 0.0 ==> rule(a, b) == Resolve(a, b, shouldMerge, sqrt)
  }

  lemma CollideRuleResolves(shouldMerge: bool, sqrt: real -> real)
    ensures Resolves(CollideRule(shouldMerge, sqrt), shouldMerge, sqrt)
  {
  }

  /** Resolving a pair keeps both masses and radii. */
  lemma CollideRuleKeeps(shouldMerge: bool, sqrt: real -> real)
    ensures KeepsBodies(CollideRule(shouldMerge, sqrt))
  {
  }

  /** Resolving a pair keeps its totals. */
  lemma CollideRuleConserves(shouldMerge: bool, sqrt: real -> real)
    ensures ConservesPairs(CollideRule(shouldMerge, sqrt))
  {
    forall a: Body, b: Body
      ensures PairTotals(CollideRule(shouldMerge, sqrt)(a, b).0, CollideRule(shouldMerge, sqrt)(a, b).1)
           == PairTotals(a, b)
    {
      if a.mass > 0.0 && b.mass > 0.0 {
        ResolveTotals(a, b, shouldMerge, sqrt);
      }
    }
  }

  lemma ResolveTotals(a: Body, b: Body, shouldMerge: bool, sqrt: real -> real)
    requires a.mass > 0.0 && b.mass > 0.0
    ensures CollideRule(shouldMerge, sqrt)(a, b) == Resolve(a, b, shouldMerge, sqrt)
    ensures PairTotals(Resolve(a, b, shouldMerge, sqrt).0, Resolve(a, b, shouldMerge, sqrt).1) == PairTotals(a, b)
  {
    ResolveConserves(a, b, shouldMerge, sqrt);
  }

  lemma PairKeeps(bs: seq<Body>, i: nat, j: nat, rule: PairRule)
    requires KeepsBodies(rule) && i < j < |bs|
    ensures Kept(bs, Pair(bs, i, j, rule))
  {
  }

  lemma {:induction false} CollideInnerKeeps(bs: seq<Body>, i: nat, j: nat, rule: PairRule)
    requires KeepsBodies(rule) && i < j <= |bs|
    ensures Kept(bs, CollideInner(bs, i, j, rule))
    decreases |bs| - j
  {
    if j < |bs| {
      PairKeeps(bs, i, j, rule);
      CollideInnerKeeps(Pair(bs, i, j, rule), i, j + 1, rule);
    }
  }

  lemma {:induction false} CollideOuterKeeps(bs: seq<Body>, i: nat, rule: PairRule)
    requires KeepsBodies(rule) && i <= |bs|
    ensures Kept(bs, CollideOuter(bs, i, rule))
    decreases |bs| - i
  {
    if i < |bs| {
      CollideInnerKeeps(bs, i, i + 1, rule);
      CollideOuterKeeps(CollideInner(bs, i, i + 1, rule), i + 1, rule);
    }
  }

  /** The totals a closed system keeps: its mass, its momentum and its mass moment (the mass
      times the centre of mass). */
  function Totals(bs: seq<Body>): (real, real, real, real, real)
  {
    (Sum(bs, Mass), Sum(bs, MomentumX), Sum(bs, MomentumY), Sum(bs, MomentX), Sum(bs, MomentY))
  }

  /** Two snapshots of one system with the same totals. */
  predicate Conserved(a: seq<Body>, b: seq<Body>)
  {
    Totals(a) == Totals(b)
  }

  /** Replacing two entries by values with the same sum keeps the sum of the sequence. */
  lemma SumPair(bs: seq<Body>, i: nat, j: nat, u: Body, v: Body, f: Body -> real)
    requires i < j < |bs| && f(u) + f(v) == f(bs[i]) + f(bs[j])
    ensures Sum(bs[i := u][j := v], f) == Sum(bs, f)
  {
    SumUpdate(bs, i, u, f);
    SumUpdate(bs[i := u], j, v, f);
  }

  /** Replacing two entries by a pair with the same totals keeps the totals of the list. */
  lemma PairSwap(bs: seq<Body>, i: nat, j: nat, u: Body, v: Body)
    requires i < j < |bs| && PairTotals(u, v) == PairTotals(bs[i], bs[j])
    ensures Conserved(bs, bs[i := u][j := v])
  {
    SumPair(bs, i, j, u, v, Mass);
    SumPair(bs, i, j, u, v, MomentumX);
    SumPair(bs, i, j, u, v, MomentumY);
    SumPair(bs, i, j, u, v, MomentX);
    SumPair(bs, i, j, u, v, MomentY);
  }

  lemma PairConserves(bs: seq<Body>, i: nat, j: nat, rule: PairRule)
    requires ConservesPairs(rule) && i < j < |bs|
    ensures Conserved(bs, Pair(bs, i, j, rule))
  {
    PairSwap(bs, i, j, rule(bs[i], bs[j]).0, rule(bs[i], bs[j]).1);
  }

  lemma {:induction false} CollideInnerConserves(bs: seq<Body>, i: nat, j: nat, rule: PairRule)
    requires ConservesPairs(rule) && i < j <= |bs|
    ensures Conserved(bs, CollideInner(bs, i, j, rule))
    decreases |bs| - j
  {
    if j < |bs| {
      PairConserves(bs, i, j, rule);
      CollideInnerConserves(Pair(bs, i, j, rule), i, j + 1, rule);
    }
  }

  lemma {:induction false} CollideOuterConserves(bs: seq<Body>, i: nat, rule: PairRule)
    requires ConservesPairs(rule) && i <= |bs|
    ensures Conserved(bs, CollideOuter(bs, i, rule))
    decreases |bs| - i
  {
    if i < |bs| {
      CollideInnerConserves(bs, i, i + 1, rule);
      CollideOuterConserves(CollideInner(bs, i, i + 1, rule), i + 1, rule);
    }
  }

  /** `collideParticles` keeps the list's length, every mass and radius, the total mass, the
      total momentum and the system's centre of mass. */
  lemma CollidePassConserves(bs: seq<Body>, shouldMerge: bool, sqrt: real -> real)
    ensures Kept(bs, CollidePass(bs, shouldMerge, sqrt))
    ensures Conserved(bs, CollidePass(bs, shouldMerge, sqrt))
  {
    CollideRuleKeeps(shouldMerge, sqrt);
    CollideRuleConserves(shouldMerge, sqrt);
    CollideOuterKeeps(bs, 0, CollideRule(shouldMerge, sqrt));
    CollideOuterConserves(bs, 0, CollideRule(shouldMerge, sqrt));
  }

  /** While merging is on, `collideParticles` changes nothing. */
  lemma CollideWhileMerging(bs: seq<Body>, sqrt: real -> real)
    ensures CollidePass(bs, true, sqrt) == bs
  {
    OuterUnchanged(bs, 0, CollideRule(true, sqrt));
  }

  /** A rule that changes no pair changes no list. */
  lemma {:induction false} OuterUnchanged(bs: seq<Body>, i: nat, rule: PairRule)
    requires (forall a, b :: rule(a, b) == (a, b)) && i <= |bs|
    ensures CollideOuter(bs, i, rule) == bs
    decreases |bs| - i
  {
    if i < |bs| {
      InnerUnchanged(bs, i, i + 1, rule);
      OuterUnchanged(bs, i + 1, rule);
    }
  }

  lemma {:induction false} InnerUnchanged(bs: seq<Body>, i: nat, j: nat, rule: PairRule)
    requires (forall a, b :: rule(a, b) == (a, b)) && i < j <= |bs|
    ensures CollideInner(bs, i, j, rule) == bs
    decreases |bs| - j
  {
    if j < |bs| {
      assert Pair(bs, i, j, rule) == bs;
      InnerUnchanged(bs, i, j + 1, rule);
    }
  }

  // Merges.

  /** `Math.pow(r1, 3) + Math.pow(r2, 3)`, the summed volume the merged radius is the cube root
      of. */
  function Volume(r1: int32, r2: int32): real
  {
    (r1 * r1 * r1) as real + (r2 * r2 * r2) as real
  }

  /** The radius of a merged particle: `(int) Math.ceil(Math.pow(v, 1.0 / 3.0))` of the summed
      volume, with the cube root a parameter. */
  function MergedRadius(r1: int32, r2: int32, cbrt: real -> real): int32
  {
    DoubleToInt(Ceil(cbrt(Volume(r1, r2))) as real)
  }

  /** The particle replacing an overlapping pair: the summed mass, at the centre of mass,
      moving with the mass-weighted mean velocity. */
  function Merged(p1: Body, p2: Body, cbrt: real -> real): (m: Body)
    requires p1.mass + p2.mass != 0.0
    ensures m.mass == p1.mass + p2.mass
  {
    Body(MassMean(p1.x, p1.mass, p2.x, p2.mass), MassMean(p1.y, p1.mass, p2.y, p2.mass),
         MassMean(p1.vx, p1.mass, p2.vx, p2.mass), MassMean(p1.vy, p1.mass, p2.vy, p2.mass),
         p1.mass + p2.mass, MergedRadius(p1.radius, p2.radius, cbrt))
  }

  /** The mean of `u1` and `u2` weighted by the masses `m1` and `m2`. */
  function MassMean(u1: real, m1: real, u2: real, m2: real): real
    requires m1 + m2 != 0.0
  {
    (u1 * m1 + u2 * m2) / (m1 + m2)
  }

  /** The merged particle carries the momentum and the mass moment of the pair. */
  lemma MergedConserves(p1: Body, p2: Body, cbrt: real -> real)
    requires p1.mass + p2.mass != 0.0
    ensures Mass(Merged(p1, p2, cbrt)) == Mass(p1) + Mass(p2)
    ensures MomentumX(Merged(p1, p2, cbrt)) == MomentumX(p1) + MomentumX(p2)
    ensures MomentumY(Merged(p1, p2, cbrt)) == MomentumY(p1) + MomentumY(p2)
    ensures MomentX(Merged(p1, p2, cbrt)) == MomentX(p1) + MomentX(p2)
    ensures MomentY(Merged(p1, p2, cbrt)) == MomentY(p1) + MomentY(p2)
  {
    MergedMomentum(p1, p2, cbrt);
    MergedMoment(p1, p2, cbrt);
  }

  lemma MergedMomentum(p1: Body, p2: Body, cbrt: real -> real)
    requires p1.mass + p2.mass != 0.0
    ensures MomentumX(Merged(p1, p2, cbrt)) == MomentumX(p1) + MomentumX(p2)
    ensures MomentumY(Merged(p1, p2, cbrt)) == MomentumY(p1) + MomentumY(p2)
  {
    MeanMoment(p1.vx, p1.mass, p2.vx, p2.mass);
    MeanMoment(p1.vy, p1.mass, p2.vy, p2.mass);
  }

  lemma MergedMoment(p1: Body, p2: Body, cbrt: real -> real)
    requires p1.mass + p2.mass != 0.0
    ensures MomentX(Merged(p1, p2, cbrt)) == MomentX(p1) + MomentX(p2)
    ensures MomentY(Merged(p1, p2, cbrt)) == MomentY(p1) + MomentY(p2)
  {
    MeanMoment(p1.x, p1.mass, p2.x, p2.mass);
    MeanMoment(p1.y, p1.mass, p2.y, p2.mass);
  }

  /** A mass-weighted mean times the summed mass is the summed moment. */
  lemma MeanMoment(u1: real, m1: real, u2: real, m2: real)
    requires m1 + m2 != 0.0
    ensures MassMean(u1, m1, u2, m2) * (m1 + m2) == u1 * m1 + u2 * m2
  {
    DivMul(u1 * m1 + u2 * m2, m1 + m2);
  }

  /** The list without entry `j`. */
  function Remove(bs: seq<Body>, j: nat): (r: seq<Body>)
    requires j < |bs|
    ensures |r| == |bs| - 1
  {
    bs[..j] + bs[j + 1..]
  }

  /** One merge event of `mergeParticles`: entry `j` is removed and slot `i` receives the
      merge of `p1` (the particle the outer loop read at `i`) with the removed one. */
  function MergeAt(bs: seq<Body>, p1: Body, i: nat, j: nat, cbrt: real -> real): (r: seq<Body>)
    requires i < j < |bs| && p1.mass + bs[j].mass != 0.0
    ensures |r| == |bs| - 1 && r[i] == Merged(p1, bs[j], cbrt)
  {
    Remove(bs, j)[i := Merged(p1, bs[j], cbrt)]
  }

  /** A merge event keeps the entries before `i` and between `i` and `j`, and moves those after
      `j` up by one. */
  lemma MergeAtParts(bs: seq<Body>, p1: Body, i: nat, j: nat, cbrt: real -> real)
    requires i < j < |bs| && p1.mass + bs[j].mass != 0.0
    ensures var r := MergeAt(bs, p1, i, j, cbrt);
      r[..i] == bs[..i] && r[i + 1..j] == bs[i + 1..j] && r[j..] == bs[j + 1..]
  {
  }

  /** The inner loop of `mergeParticles` for outer index `i`, from inner index `j` on. `p1` is
      the particle read at `i` before the loop: it is not re-read after a merge writes slot
      `i`. After a merge the same index `j` is visited again, since the list has moved up. */
  function MergeInner(bs: seq<Body>, p1: Body, i: nat, j: nat, sqrt: real -> real, cbrt: real -> real)
    : (r: seq<Body>)
    requires PositiveMasses(bs) && p1.mass > 0.0 && i < j <= |bs|
    ensures i < |r| <= |bs| && PositiveMasses(r)
    decreases |bs| - j
  {
    if j == |bs| then bs
    else if Overlap(p1, bs[j], sqrt) then
      PositiveMerge(bs, p1, i, j, cbrt);
      MergeInner(MergeAt(bs, p1, i, j, cbrt), p1, i, j, sqrt, cbrt)
    else MergeInner(bs, p1, i, j + 1, sqrt, cbrt)
  }

  lemma PositiveMerge(bs: seq<Body>, p1: Body, i: nat, j: nat, cbrt: real -> real)
    requires PositiveMasses(bs) && p1.mass > 0.0 && i < j < |bs|
    ensures PositiveMasses(MergeAt(bs, p1, i, j, cbrt))
  {
    var r := MergeAt(bs, p1, i, j, cbrt);
    MergeAtParts(bs, p1, i, j, cbrt);
    forall k | 0 <= k < |r|
      ensures r[k].mass > 0.0
    {
      if k < i {
        assert r[k] == r[..i][k];
      } else if i < k < j {
        assert r[k] == r[i + 1..j][k - i - 1];
      } else if j <= k {
        assert r[k] == r[j..][k - j];
      }
    }
  }

  /** The inner loop of outer index `i` leaves the entries before `i` alone. */
  lemma {:induction false} MergeInnerPrefix(bs: seq<Body>, p1: Body, i: nat, j: nat, sqrt: real -> real,
                                            cbrt: real -> real)
    requires PositiveMasses(bs) && p1.mass > 0.0 && i < j <= |bs|
    ensures MergeInner(bs, p1, i, j, sqrt, cbrt)[..i] == bs[..i]
    decreases |bs| - j
  {
    if j < |bs| {
      if Overlap(p1, bs[j], sqrt) {
        PositiveMerge(bs, p1, i, j, cbrt);
        MergeAtParts(bs, p1, i, j, cbrt);
        MergeInnerPrefix(MergeAt(bs, p1, i, j, cbrt), p1, i, j, sqrt, cbrt);
      } else {
        MergeInnerPrefix(bs, p1, i, j + 1, sqrt, cbrt);
      }
    }
  }

  /** The number of merge events of the inner loop. */
  function MergeCount(bs: seq<Body>, p1: Body, i: nat, j: nat, sqrt: real -> real, cbrt: real -> real)
    : nat
    requires PositiveMasses(bs) && p1.mass > 0.0 && i < j <= |bs|
    decreases |bs| - j
  {
    if j == |bs| then 0
    else if Overlap(p1, bs[j], sqrt) then
      PositiveMerge(bs, p1, i, j, cbrt);
      1 + MergeCount(MergeAt(bs, p1, i, j, cbrt), p1, i, j, sqrt, cbrt)
    else MergeCount(bs, p1, i, j + 1, sqrt, cbrt)
  }

  /** Every merge event shrinks the list by one. */
  lemma {:induction false} MergeShrinks(bs: seq<Body>, p1: Body, i: nat, j: nat, sqrt: real -> real,
                                        cbrt: real -> real)
    requires PositiveMasses(bs) && p1.mass > 0.0 && i < j <= |bs|
    ensures |MergeInner(bs, p1, i, j, sqrt, cbrt)| == |bs| - MergeCount(bs, p1, i, j, sqrt, cbrt)
    decreases |bs| - j
  {
    if j < |bs| {
      if Overlap(p1, bs[j], sqrt) {
        PositiveMerge(bs, p1, i, j, cbrt);
        MergeShrinks(MergeAt(bs, p1, i, j, cbrt), p1, i, j, sqrt, cbrt);
      } else {
        MergeShrinks(bs, p1, i, j + 1, sqrt, cbrt);
      }
    }
  }

  /** The outer loop of `mergeParticles`, from index `i` on. */
  function MergeOuter(bs: seq<Body>, i: nat, sqrt: real -> real, cbrt: real -> real): (r: seq<Body>)
    requires PositiveMasses(bs) && i <= |bs|
    ensures |r| <= |bs| && PositiveMasses(r)
    decreases |bs| - i
  {
    if i == |bs| then bs
    else MergeOuter(MergeInner(bs, bs[i], i, i + 1, sqrt, cbrt), i + 1, sqrt, cbrt)
  }

  /** The whole of `mergeParticles`. */
  function MergePass(bs: seq<Body>, sqrt: real -> real, cbrt: real -> real): (r: seq<Body>)
    requires PositiveMasses(bs)
    ensures |r| <= |bs| && PositiveMasses(r)
  {
    MergeOuter(bs, 0, sqrt, cbrt)
  }

  /** The collision step of a tick on the snapshot: the merge pass when merging is on, the
      collide pass otherwise. */
  function Collided(bs: seq<Body>, shouldMerge: bool, sqrt: real -> real, cbrt: real -> real): seq<Body>
    requires PositiveMasses(bs)
  {
    if shouldMerge then MergePass(bs, sqrt, cbrt) else CollidePass(bs, false, sqrt)
  }

  /** No particle of the outer loop merges more than once. */
  ghost predicate MergesOnce(bs: seq<Body>, i: nat, sqrt: real -> real, cbrt: real -> real)
    requires PositiveMasses(bs) && i <= |bs|
    decreases |bs| - i
  {
    i == |bs| ||
    (MergeCount(bs, bs[i], i, i + 1, sqrt, cbrt) <= 1 &&
     MergesOnce(MergeInner(bs, bs[i], i, i + 1, sqrt, cbrt), i + 1, sqrt, cbrt))
  }

  lemma SumsOfMerge(bs: seq<Body>, i: nat, j: nat, cbrt: real -> real, f: Body -> real)
    requires i < j < |bs| && bs[i].mass + bs[j].mass != 0.0
    requires f(Merged(bs[i], bs[j], cbrt)) == f(bs[i]) + f(bs[j])
    ensures Sum(MergeAt(bs, bs[i], i, j, cbrt), f) == Sum(bs, f)
  {
    var m := Merged(bs[i], bs[j], cbrt);
    SumRemove(bs, j, f);
    assert Remove(bs, j)[i] == bs[i];
    SumUpdate(Remove(bs, j), i, m, f);
  }

  lemma MergeAtConserves(bs: seq<Body>, i: nat, j: nat, cbrt: real -> real)
    requires i < j < |bs| && bs[i].mass + bs[j].mass != 0.0
    ensures Conserved(bs, MergeAt(bs, bs[i], i, j, cbrt))
  {
    MergedConserves(bs[i], bs[j], cbrt);
    SumsOfMerge(bs, i, j, cbrt, Mass);
    SumsOfMerge(bs, i, j, cbrt, MomentumX);
    SumsOfMerge(bs, i, j, cbrt, MomentumY);
    SumsOfMerge(bs, i, j, cbrt, MomentX);
    SumsOfMerge(bs, i, j, cbrt, MomentY);
  }

  /** An inner loop without merge events changes nothing. */
  lemma {:induction false} NoMergeKeeps(bs: seq<Body>, p1: Body, i: nat, j: nat, sqrt: real -> real,
                                        cbrt: real -> real)
    requires PositiveMasses(bs) && p1.mass > 0.0 && i < j <= |bs|
    requires MergeCount(bs, p1, i, j, sqrt, cbrt) == 0
    ensures MergeInner(bs, p1, i, j, sqrt, cbrt) == bs
    decreases |bs| - j
  {
    if j < |bs| {
      NoMergeKeeps(bs, p1, i, j + 1, sqrt, cbrt);
    }
  }

  /** An inner loop with at most one merge event, started while slot `i` still holds `p1`,
      keeps the total mass, momentum and mass moment. */
  lemma {:induction false} MergeInnerConserves(bs: seq<Body>, i: nat, j: nat, sqrt: real -> real,
                                               cbrt: real -> real)
    requires PositiveMasses(bs) && i < j <= |bs|
    requires MergeCount(bs, bs[i], i, j, sqrt, cbrt) <= 1
    ensures Conserved(bs, MergeInner(bs, bs[i], i, j, sqrt, cbrt))
    decreases |bs| - j
  {
    if j < |bs| {
      if Overlap(bs[i], bs[j], sqrt) {
        PositiveMerge(bs, bs[i], i, j, cbrt);
        var next := MergeAt(bs, bs[i], i, j, cbrt);
        NoMergeKeeps(next, bs[i], i, j, sqrt, cbrt);
        assert MergeInner(bs, bs[i], i, j, sqrt, cbrt) == next;
        MergeAtConserves(bs, i, j, cbrt);
      } else {
        assert MergeInner(bs, bs[i], i, j, sqrt, cbrt) == MergeInner(bs, bs[i], i, j + 1, sqrt, cbrt);
        MergeInnerConserves(bs, i, j + 1, sqrt, cbrt);
      }
    }
  }

  lemma {:induction false} MergeOuterConserves(bs: seq<Body>, i: nat, sqrt: real -> real, cbrt: real -> real)
    requires PositiveMasses(bs) && i <= |bs| && MergesOnce(bs, i, sqrt, cbrt)
    ensures Conserved(bs, MergeOuter(bs, i, sqrt, cbrt))
    decreases |bs| - i
  {
    if i < |bs| {
      var next := MergeInner(bs, bs[i], i, i + 1, sqrt, cbrt);
      MergeInnerConserves(bs, i, i + 1, sqrt, cbrt);
      MergeOuterConserves(next, i + 1, sqrt, cbrt);
    }
  }

  /** When no particle merges twice in one sweep, `mergeParticles` keeps the total mass, the
      total momentum and the system's centre of mass. */
  lemma MergePassConserves(bs: seq<Body>, sqrt: real -> real, cbrt: real -> real)
    requires PositiveMasses(bs) && MergesOnce(bs, 0, sqrt, cbrt)
    ensures Conserved(bs, MergePass(bs, sqrt, cbrt))
  {
    MergeOuterConserves(bs, 0, sqrt, cbrt);
  }

  /** Without the condition the pass can lose mass: three copies of one particle that
      overlaps itself. The first merge writes slot 0; the second merge again combines the
      stale first particle with the third and overwrites slot 0, so the second copy's mass
      disappears. */
  lemma StaleMergeLosesMass(p: Body, sqrt: real -> real, cbrt: real -> real)
    requires p.mass > 0.0 && Overlap(p, p, sqrt)
    ensures MergePass([p, p, p], sqrt, cbrt) == [Merged(p, p, cbrt)]
    ensures TotalMass(MergePass([p, p, p], sqrt, cbrt)) == 2.0 * p.mass
    ensures TotalMass([p, p, p]) == 3.0 * p.mass
  {
    StaleMerges(p, sqrt, cbrt);
    TotalOfOne(Merged(p, p, cbrt));
    TotalOfThree(p);
  }

  lemma StaleMerges(p: Body, sqrt: real -> real, cbrt: real -> real)
    requires p.mass > 0.0 && Overlap(p, p, sqrt)
    ensures MergePass([p, p, p], sqrt, cbrt) == [Merged(p, p, cbrt)]
  {
    StaleInner(p, sqrt, cbrt);
    assert MergeOuter([Merged(p, p, cbrt)], 1, sqrt, cbrt) == [Merged(p, p, cbrt)];
    assert MergeOuter([p, p, p], 0, sqrt, cbrt) == MergeOuter(MergeInner([p, p, p], p, 0, 1, sqrt, cbrt), 1, sqrt, cbrt);
  }

  lemma StaleInner(p: Body, sqrt: real -> real, cbrt: real -> real)
    requires p.mass > 0.0 && Overlap(p, p, sqrt)
    ensures MergeInner([p, p, p], p, 0, 1, sqrt, cbrt) == [Merged(p, p, cbrt)]
  {
    FirstMerge(p, cbrt);
    SecondMerge(p, cbrt);
    MergeStep([p, p, p], p, 0, 1, sqrt, cbrt);
    MergeStep([Merged(p, p, cbrt), p], p, 0, 1, sqrt, cbrt);
    assert MergeInner([Merged(p, p, cbrt)], p, 0, 1, sqrt, cbrt) == [Merged(p, p, cbrt)];
  }

  lemma FirstMerge(p: Body, cbrt: real -> real)
    requires p.mass > 0.0
    ensures MergeAt([p, p, p], p, 0, 1, cbrt) == [Merged(p, p, cbrt), p]
  {
    assert Remove([p, p, p], 1) == [p, p];
  }

  lemma SecondMerge(p: Body, cbrt: real -> real)
    requires p.mass > 0.0
    ensures MergeAt([Merged(p, p, cbrt), p], p, 0, 1, cbrt) == [Merged(p, p, cbrt)]
  {
    assert Remove([Merged(p, p, cbrt), p], 1) == [Merged(p, p, cbrt)];
  }

  lemma TotalOfOne(b: Body)
    ensures TotalMass([b]) == b.mass
  {
    SumSnoc([], b, Mass);
    assert [] + [b] == [b];
  }

  lemma TotalOfThree(b: Body)
    ensures TotalMass([b, b, b]) == 3.0 * b.mass
  {
    SumSnoc([b, b], b, Mass);
    SumSnoc([b], b, Mass);
    TotalOfOne(b);
    assert [b, b] + [b] == [b, b, b] && [b] + [b] == [b, b];
  }

  /** A merge event at `j` leaves the inner loop at the same index `j`. */
  lemma MergeStep(bs: seq<Body>, p1: Body, i: nat, j: nat, sqrt: real -> real, cbrt: real -> real)
    requires PositiveMasses(bs) && p1.mass > 0.0 && i < j < |bs| && Overlap(p1, bs[j], sqrt)
    ensures PositiveMasses(MergeAt(bs, p1, i, j, cbrt))
    ensures MergeInner(bs, p1, i, j, sqrt, cbrt) == MergeInner(MergeAt(bs, p1, i, j, cbrt), p1, i, j, sqrt, cbrt)
  {
    PositiveMerge(bs, p1, i, j, cbrt);
  }
}
