/** The semi-implicit (symplectic) Euler step shared by `Particle.update` and
    `Planet.updatePosition`: the velocity is advanced first and the position is then advanced
    with the NEW velocity. */
module Kinematics {

  datatype Motion = Motion(x: real, y: real, vx: real, vy: real)

  /** One step of length `dt` under the acceleration `(ax, ay)`. */
  function EulerStep(m: Motion, ax: real, ay: real, dt: real): (r: Motion)
    ensures r.vx == m.vx + ax * dt && r.vy == m.vy + ay * dt
    ensures r.x == m.x + r.vx * dt && r.y == m.y + r.vy * dt
  {
    var vx := m.vx + ax * dt;
    var vy := m.vy + ay * dt;
    Motion(m.x + vx * dt, m.y + vy * dt, vx, vy)
  }

  /** The step undone: drift back with the new velocity, then kick the velocity back. */
  function EulerUnstep(r: Motion, ax: real, ay: real, dt: real): Motion
  {
    Motion(r.x - r.vx * dt, r.y - r.vy * dt, r.vx - ax * dt, r.vy - ay * dt)
  }

  /** The step is invertible: undoing it restores the state it started from. */
  lemma StepUndone(m: Motion, ax: real, ay: real, dt: real)
    ensures EulerUnstep(EulerStep(m, ax, ay, dt), ax, ay, dt) == m
  {
  }

  /** In closed form the new position gains `v·dt + a·dt²`, which is what distinguishes the
      semi-implicit step from the explicit one (`v·dt` only). */
  lemma StepClosedForm(m: Motion, ax: real, ay: real, dt: real)
    ensures EulerStep(m, ax, ay, dt).x == m.x + m.vx * dt + ax * dt * dt
    ensures EulerStep(m, ax, ay, dt).y == m.y + m.vy * dt + ay * dt * dt
  {
  }

  /** A step of length zero changes nothing. */
  lemma StepWithoutTime(m: Motion, ax: real, ay: real)
    ensures EulerStep(m, ax, ay, 0.0) == m
  {
  }

  /** Without acceleration the velocity is kept and the position moves by `v·dt`. */
  lemma StepWithoutAcceleration(m: Motion, dt: real)
    ensures EulerStep(m, 0.0, 0.0, dt) == Motion(m.x + m.vx * dt, m.y + m.vy * dt, m.vx, m.vy)
  {
  }
}
