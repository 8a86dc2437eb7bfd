/**
 * The cascaded altitude-hold controller: an outer proportional loop turns the
 * altitude error into a vertical-velocity set-point, and an inner PID loop on
 * the velocity error produces the control value.
 *
 * Quantities are Dafny `real`s, an idealisation of floating point: rounding,
 * NaN and infinities are not modelled.
 */
module PidController {

  function Abs(x: real): (r: real)
  {
    if x < 0.0 then -x else x
  }

  /** Symmetric clamp of `x` to `[-lim, lim]` (`_constrainAbs`). */
  function Clamp(x: real, lim: real): (r: real)
    ensures lim >= 0.0 ==> -lim <= r <= lim
    ensures -lim <= x <= lim ==> r == x
    ensures x < -lim ==> r == -lim
    ensures lim >= 0.0 && x > lim ==> r == lim
  {
    if x < -lim then -lim else if x > lim then lim else x
  }

  lemma ClampIdempotent(x: real, lim: real)
    requires lim >= 0.0
    ensures Clamp(Clamp(x, lim), lim) == Clamp(x, lim)
  {
  }

  /** The tuning of a controller: fixed at construction, never changed by an update. */
  datatype Gains = Gains(target: real, posP: real, velP: real, velI: real, velD: real, windupMax: real)

  /** What a controller remembers between two updates. */
  datatype Memory = Memory(lastError: real, integralError: real)

  /** The value `u` returns, or the division by zero it raises. */
  datatype Outcome = Control(value: real) | ZeroDivision

  datatype LawResult = LawResult(out: Outcome, next: Memory)

  /** The inner loop's error: velocity set-point from the altitude error, minus the velocity. */
  function VelocityError(target: real, posP: real, alt: real, vel: real): (e: real)
    ensures e == 0.0 <==> vel == (target - alt) * posP
    ensures alt == target ==> e == -vel
  {
    (target - alt) * posP - vel
  }

  /** One accumulation of the velocity error into the integral. */
  function Accumulate(integral: real, velError: real, dt: real): (r: real)
  {
    integral + velError * dt
  }

  /** The derivative estimate, guarded by the previous error rather than by `dt`. */
  function DeltaError(velError: real, lastError: real, dt: real): (d: real)
    requires Abs(lastError) > 0.0 ==> dt != 0.0
    ensures lastError == 0.0 ==> d == 0.0
  {
    if Abs(lastError) > 0.0 then (velError - lastError) / dt else 0.0
  }

  /** The inner loop's output: the P, D and I terms summed. */
  function PidSum(velP: real, velI: real, velD: real, velError: real, deltaError: real, integral: real): (u: real)
    ensures velError == 0.0 && deltaError == 0.0 ==> u == velI * integral
  {
    velP * velError + velD * deltaError + velI * integral
  }

  /**
   * One call of the control law on the controller's memory `m`.  The
   * integral receives `velError * dt` twice before it is clamped; the
   * derivative is guarded by the previous error being non-zero, so when it is
   * non-zero and `dt` is zero the call fails with a division by zero, after
   * the integral was already stored and before the error was.
   */
  function Law(g: Gains, m: Memory, alt: real, vel: real, dt: real): (r: LawResult)
    ensures g.windupMax >= 0.0 ==> Abs(r.next.integralError) <= g.windupMax
  {
    var velError := VelocityError(g.target, g.posP, alt, vel);
    var integral := Clamp(Accumulate(Accumulate(m.integralError, velError, dt), velError, dt), g.windupMax);
    if Abs(m.lastError) > 0.0 && dt == 0.0 then
      LawResult(ZeroDivision, Memory(m.lastError, integral))
    else
      LawResult(Control(PidSum(g.velP, g.velI, g.velD, velError, DeltaError(velError, m.lastError, dt), integral)),
                Memory(velError, integral))
  }

  /**
   * The call fails exactly when there is a previous error and `dt` is zero; the
   * clamp keeps the integral within the windup bound; a successful call
   * remembers the new velocity error, a failed one keeps the old error.
   */
  lemma LawContract(g: Gains, m: Memory, alt: real, vel: real, dt: real)
    ensures Law(g, m, alt, vel, dt).out.ZeroDivision? <==> m.lastError != 0.0 && dt == 0.0
    ensures g.windupMax >= 0.0 ==> Abs(Law(g, m, alt, vel, dt).next.integralError) <= g.windupMax
    ensures Law(g, m, alt, vel, dt).next.lastError
         == if Law(g, m, alt, vel, dt).out.Control? then VelocityError(g.target, g.posP, alt, vel) else m.lastError
  {
  }

  /** The reference single accumulation: the integral advanced once by `velError * dt`. */
  function SingleAccumulation(g: Gains, m: Memory, alt: real, vel: real, dt: real): (i: real)
    ensures g.windupMax >= 0.0 ==> Abs(i) <= g.windupMax
  {
    Clamp(Accumulate(m.integralError, VelocityError(g.target, g.posP, alt, vel), dt), g.windupMax)
  }

  /** Two accumulations over `dt` are one accumulation over `2 * dt`. */
  lemma AccumulateTwice(integral: real, velError: real, dt: real)
    ensures Accumulate(Accumulate(integral, velError, dt), velError, dt) == integral + 2.0 * velError * dt
    ensures Accumulate(Accumulate(integral, velError, dt), velError, dt) == Accumulate(integral, velError, 2.0 * dt)
  {
  }

  /**
   * The integral as written receives `velError * dt` twice before the clamp,
   * which is a single accumulation over twice the step.
   */
  lemma DoubleAccumulation(g: Gains, m: Memory, alt: real, vel: real, dt: real)
    ensures Law(g, m, alt, vel, dt).next.integralError
         == Clamp(m.integralError + 2.0 * VelocityError(g.target, g.posP, alt, vel) * dt, g.windupMax)
    ensures Law(g, m, alt, vel, dt).next.integralError == SingleAccumulation(g, m, alt, vel, 2.0 * dt)
  {
    AccumulateTwice(m.integralError, VelocityError(g.target, g.posP, alt, vel), dt);
  }

  /**
   * A successful call returns the P, D and I terms summed, the I term using the
   * integral just updated; the derivative is the change of error over `dt`, or
   * zero when there was no previous error.
   */
  lemma ControlIsPidSum(g: Gains, m: Memory, alt: real, vel: real, dt: real)
    requires m.lastError != 0.0 ==> dt != 0.0
    ensures Law(g, m, alt, vel, dt).out
         == Control(g.velP * VelocityError(g.target, g.posP, alt, vel)
                    + g.velD * (if m.lastError != 0.0 then (VelocityError(g.target, g.posP, alt, vel) - m.lastError) / dt else 0.0)
                    + g.velI * Law(g, m, alt, vel, dt).next.integralError)
  {
  }

  /** With no previous error, the derivative contributes nothing, whatever `dt` is. */
  lemma FirstCallIsDerivativeFree(g: Gains, alt: real, vel: real, dt: real, integral: real)
    ensures Law(g, Memory(0.0, integral), alt, vel, dt).out
         == Control(g.velP * VelocityError(g.target, g.posP, alt, vel)
                    + g.velI * Clamp(integral + 2.0 * VelocityError(g.target, g.posP, alt, vel) * dt, g.windupMax))
  {
  }

  /**
   * At the target, at rest and with no previous error, only the integral term
   * is left, and the integral is merely clamped again.  Inside the windup
   * invariant (a non-negative bound the integral already meets) the memory is
   * unchanged and the result is `velI * integralError`.
   */
  lemma ZeroErrorFixedPoint(g: Gains, m: Memory, dt: real)
    requires m.lastError == 0.0
    ensures Law(g, m, g.target, 0.0, dt)
         == LawResult(Control(g.velI * Clamp(m.integralError, g.windupMax)), Memory(0.0, Clamp(m.integralError, g.windupMax)))
    ensures g.windupMax >= 0.0 && Abs(m.integralError) <= g.windupMax
         ==> Law(g, m, g.target, 0.0, dt) == LawResult(Control(g.velI * m.integralError), m)
  {
    assert VelocityError(g.target, g.posP, g.target, 0.0) == 0.0;
    assert Accumulate(m.integralError, 0.0, dt) == m.integralError;
    assert DeltaError(0.0, m.lastError, dt) == 0.0;
    assert PidSum(g.velP, g.velI, g.velD, 0.0, 0.0, Clamp(m.integralError, g.windupMax))
        == g.velI * Clamp(m.integralError, g.windupMax);
    assert Law(g, m, g.target, 0.0, dt)
        == LawResult(Control(g.velI * Clamp(m.integralError, g.windupMax)), Memory(0.0, Clamp(m.integralError, g.windupMax)));
    if g.windupMax >= 0.0 && Abs(m.integralError) <= g.windupMax {
      var c := Clamp(m.integralError, g.windupMax);
      assert c == m.integralError;
      assert Memory(0.0, c) == m;
      var x := g.velI * c;
      assert x == g.velI * m.integralError;
      assert Law(g, m, g.target, 0.0, dt).next == m;
      assert Law(g, m, g.target, 0.0, dt).out == Control(x);
      assert Law(g, m, g.target, 0.0, dt).out == Control(g.velI * m.integralError);
    }
  }

  /** `posP` reaches the result only through the velocity error. */
  lemma PositionGainOnlyThroughVelocityError(g1: Gains, g2: Gains, m: Memory, alt: real, vel: real, dt: real)
    requires g1.target == g2.target && g1.windupMax == g2.windupMax
    requires g1.velP == g2.velP && g1.velI == g2.velI && g1.velD == g2.velD
    requires VelocityError(g1.target, g1.posP, alt, vel) == VelocityError(g2.target, g2.posP, alt, vel)
    ensures Law(g1, m, alt, vel, dt) == Law(g2, m, alt, vel, dt)
  {
  }

  /**
   * `AltitudePidController`: the tuning fields, the two in-flight error
   * fields, and the two set-point fields that are initialised and never used.
   */
  class AltitudePidController {
    const target: real
    const posP: real
    const velP: real
    const velI: real
    const velD: real
    const windupMax: real

    var posTarget: real
    var lastError: real
    var integralError: real
    var altitudeTarget: real

    ghost function Tuning(): Gains
      reads this
    {
      Gains(target, posP, velP, velI, velD, windupMax)
    }

    ghost function Errors(): Memory
      reads this
    {
      Memory(lastError, integralError)
    }

    /** The anti-windup invariant, for a controller built with a non-negative bound. */
    ghost predicate Valid()
      reads this
    {
      windupMax >= 0.0 && Abs(integralError) <= windupMax
      && posTarget == 0.0 && altitudeTarget == 0.0
    }

    constructor (target: real, posP: real, velP: real, velI: real, velD: real, windupMax: real := 10.0)
      ensures Tuning() == Gains(target, posP, velP, velI, velD, windupMax)
      ensures Errors() == Memory(0.0, 0.0)
      ensures posTarget == 0.0 && altitudeTarget == 0.0
      ensures windupMax >= 0.0 ==> Valid()
    {
      this.target := target;
      this.posP := posP;
      this.velP := velP;
      this.velI := velI;
      this.velD := velD;
      this.windupMax := windupMax;
      posTarget := 0.0;
      lastError := 0.0;
      integralError := 0.0;
      altitudeTarget := 0.0;
    }

    /** `u(alt, vel, dt)`: one step of the control law, updating the two error fields. */
    method Update(alt: real, vel: real, dt: real) returns (r: Outcome)
      modifies this
      ensures Tuning() == old(Tuning())
      ensures posTarget == old(posTarget) && altitudeTarget == old(altitudeTarget)
      ensures LawResult(r, Errors()) == Law(Tuning(), old(Errors()), alt, vel, dt)
      ensures windupMax >= 0.0 ==> Abs(integralError) <= windupMax
      ensures old(Valid()) ==> Valid()
    {
      ghost var before := Errors();
      var velTarget := (target - alt) * posP;
      var velError := velTarget - vel;
      assert velError == VelocityError(target, posP, alt, vel);

      integralError := integralError + velError * dt;
      assert integralError == Accumulate(before.integralError, velError, dt);
      integralError := Clamp(integralError + velError * dt, windupMax);
      assert integralError == Clamp(Accumulate(Accumulate(before.integralError, velError, dt), velError, dt), windupMax);
      if Abs(lastError) > 0.0 && dt == 0.0 {
        return ZeroDivision;
      }
      var deltaError := DeltaError(velError, lastError, dt);
      lastError := velError;

      r := Control(velP * velError + velD * deltaError + velI * integralError);
      assert r.value == PidSum(velP, velI, velD, velError, deltaError, integralError);
    }
  }
}
