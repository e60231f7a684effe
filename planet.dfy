/** The `Planet` of `src/Planet.java`, shared by both simulations: a body whose radius is
    derived from its mass once, at construction, and which is advanced by the same
    semi-implicit Euler step as a particle. */
module Planets {
  import opened Numerics
  import opened Kinematics

  class Planet {
    var x: real
    var y: real
    var mass: real
    var velocityX: real
    var velocityY: real
    var radius: int32

    /** A planet at `(x, y)` with the given mass and velocity; its radius is
        `(int) (Math.log(mass) * 2)`, with the natural logarithm a parameter. */
    constructor (x: real, y: real, mass: real, velocityX: real, velocityY: real, log: real -> real)
      ensures State() == Motion(x, y, velocityX, velocityY) && this.mass == mass
      ensures radius == DoubleToInt(log(mass) * 2.0)
    {
      this.x := x;
      this.y := y;
      this.mass := mass;
      this.velocityX := velocityX;
      this.velocityY := velocityY;
      this.radius := DoubleToInt(log(mass) * 2.0);
    }

    function State(): Motion
      reads this`x, this`y, this`velocityX, this`velocityY
    {
      Motion(x, y, velocityX, velocityY)
    }

    /** One semi-implicit Euler step of length `dt` under the acceleration `(ax, ay)`; the mass
        and the radius do not change. */
    method UpdatePosition(accelerationX: real, accelerationY: real, dt: real)
      modifies this`x, this`y, this`velocityX, this`velocityY
      ensures State() == EulerStep(old(State()), accelerationX, accelerationY, dt)
    {
      velocityX := velocityX + accelerationX * dt;
      velocityY := velocityY + accelerationY * dt;
      x := x + velocityX * dt;
      y := y + velocityY * dt;
    }
  }

  /** A planet's radius grows with its mass: a heavier planet is never drawn smaller, as long
      as the logarithm is monotone. */
  lemma RadiusMonotone(m1: real, m2: real, log: real -> real)
    requires log(m1) <= log(m2)
    ensures DoubleToInt(log(m1) * 2.0) <= DoubleToInt(log(m2) * 2.0)
  {
    TruncationMonotone(log(m1) * 2.0, log(m2) * 2.0);
  }

  /** Java's narrowing cast is monotone. */
  lemma TruncationMonotone(u: real, v: real)
    requires u <= v
    ensures DoubleToInt(u) <= DoubleToInt(v)
  {
  }
}
