# Altitude-hold PID controller and its fixed-step simulation

This project models two pieces:

- **The cascaded altitude PID controller `AltitudePidController`.** An outer proportional loop turns the altitude error into a vertical-velocity set-point. An inner PID loop on the velocity error then produces the control value.
- **The fixed-step simulation loop that drives it.** A point mass under gravity accelerates at `G - u`. It is integrated by semi-implicit Euler steps of `DT = 0.001` s until two successive altitudes differ by less than `1e-7`. Each step logs one record `(t, dzdt2, dzdt, z, u)`.

Every quantity is a Dafny `real`. This idealises the program's floating point: rounding, NaN and infinities are not modelled.

`pidcontroller.dfy` (module `PidController`) has three parts:

- **The pure clamp `Clamp`.**
- **The control law as a specification function `Law`.** `Law` is built from small named parts: `VelocityError`, `Accumulate`, `DeltaError` and `PidSum`. It works on the tuning (`Gains`) and the in-flight memory (`Memory`).
- **The class `AltitudePidController`.** Its constant tuning fields mirror the program's. Its `Update` method changes `lastError` and `integralError` in place, as `u` does. Its contract ties the result and the new fields to `Law`. Lemmas then prove what the program promises about `Law`.

Three behaviours of the code are kept as written:

- **The integral receives `velError * dt` twice per call before it is clamped.** `DoubleAccumulation` proves this equals one accumulation over `2 * dt`.
- **The derivative is guarded by the previous error being non-zero, not by `dt`.** With a previous error and `dt == 0`, the call ends in a division by zero. The model represents this as the `ZeroDivision` outcome. Just as in the program, the integral has already been stored at that point and the error has not.
- **A negative windup bound is accepted at construction.** The clamp then inverts. The constructor does not reject a negative bound, and neither does the model. The windup invariant is stated for a non-negative bound only, and the constructor establishes it whenever the bound is non-negative.

`simulation.dfy` (module `Simulation`) has these parts:

- **Constants and initial conditions.**
- **One loop iteration as a pure function `Next`.** The lemma `StepEquations` gives its physics.
- **The loop as a fuel-bounded function `Simulate`.**
- **The class `Simulator`.** Its fields are the loop variables `t, z, dzdt, u, zprev`, the controller it built, and `rows`, a sequence of records that grows in place where the program writes CSV lines. `Step` is one iteration. `Run(fuel)` is the loop for at most `fuel` iterations. Both are proved against `Next` and `Simulate`.

## Model

| member | source | states |
|---|---|---|
| `PidController.Clamp` | pidcontroller.py:37-39 | for `lim >= 0` the result lies in `[-lim, lim]`; a value already within the bounds is returned unchanged; a value below `-lim` becomes `-lim`, and for `lim >= 0` a value above `lim` becomes `lim` |
| `PidController.ClampIdempotent` | pidcontroller.py:37-39 | clamping twice with the same non-negative bound is clamping once |
| `PidController.VelocityError` | pidcontroller.py:25-26 | the velocity set-point `(target - alt) * posP` minus the velocity; definition; its contract only rearranges it (zero exactly when the velocity meets the set-point, `-vel` at the target altitude), and `LawContract` and `ZeroErrorFixedPoint` prove what depends on it |
| `PidController.PidSum` | pidcontroller.py:35 | definition of the P, D and I terms summed; its contract only rearranges it (only the I term is left with no velocity error and no derivative), and `ControlIsPidSum` proves the result of a call |
| `PidController.Law` | pidcontroller.py:22-35 | definition of one call of `u` on the tuning and memory, with its outcome and new memory; its own contract keeps the integral within a non-negative windup bound, and `LawContract`, `DoubleAccumulation`, `ControlIsPidSum` and the lemmas below prove its other properties |
| `PidController.Accumulate` | pidcontroller.py:29-30 | definition of one accumulation of `velError * dt` into the integral; `AccumulateTwice` and `DoubleAccumulation` prove what two of them give |
| `PidController.Abs` | pidcontroller.py:31 | definition of `abs`, used by the derivative guard and by the halting test |
| `PidController.DeltaError` | pidcontroller.py:31 | the derivative estimate is zero when the previous error is zero, whatever `dt` is; it needs `dt != 0` only when there is a previous error |
| `PidController.LawContract` | pidcontroller.py:29-32 | a call fails with a division by zero exactly when `lastError != 0` and `dt == 0`; with a non-negative windup bound the new integral stays inside it; a successful call stores `(target - alt) * posP - vel` as the new error, a failed one keeps the old error |
| `PidController.SingleAccumulation` | pidcontroller.py:29-30 | reference definition of one clamped accumulation of the velocity error, within the windup bound when that bound is non-negative |
| `PidController.AccumulateTwice` | pidcontroller.py:29-30 | two accumulations of `e * dt` equal `i + 2 * e * dt`, which is one accumulation over `2 * dt` |
| `PidController.DoubleAccumulation` | pidcontroller.py:29-30 | the new integral is `clamp(old + 2 * velError * dt, windupMax)`, that is, the single accumulation over twice the step |
| `PidController.ControlIsPidSum` | pidcontroller.py:25-35 | a successful call returns `velP * velError + velD * deltaError + velI * integral`, using the integral just updated and the derivative `(velError - lastError) / dt`, or 0 without a previous error |
| `PidController.FirstCallIsDerivativeFree` | pidcontroller.py:18-35 | with no previous error (as right after construction), every call succeeds for any `dt`, and its result has no derivative term |
| `PidController.ZeroErrorFixedPoint` | pidcontroller.py:25-35 | at the target, at rest and with no previous error, the call succeeds, the integral is only clamped again, and the result is `velI` times that integral; inside the windup invariant (a non-negative bound the integral already meets) the call returns `velI * integralError` and leaves the memory unchanged |
| `PidController.PositionGainOnlyThroughVelocityError` | pidcontroller.py:25-35 | two tunings that differ only in `posP` but give the same velocity error produce the same result and memory |
| `PidController.AltitudePidController.constructor` | pidcontroller.py:4-20 | the tuning is the arguments (windup bound 10 by default), both errors and both unused set-points start at 0, and the windup invariant holds for a non-negative bound |
| `PidController.AltitudePidController.Update` | pidcontroller.py:22-35 | the result and the new error fields are those of one call of the law on the old fields; the tuning and the two unused set-points are unchanged; the integral stays within a non-negative windup bound, and the invariant is preserved |
| `Simulation.SimGains` | test.py:21-58 | the controller of the simulation has tuning `(50, 5, 1.5, 1.0, 0.05)` and the default, non-negative windup bound |
| `Simulation.Converged` | test.py:63 | the halting test `abs(z - zprev) < 1e-7`, a definition whose contract only rearranges it as `zprev - 1e-7 < z < zprev + 1e-7`; `Simulate`, `RunIsIteration` and `ConvergedAfterStep` prove where it holds |
| `Simulation.Initial` | test.py:21-45 | the initial state (time 0, altitude 55, at rest, no control, `zprev` 0) does not satisfy the halting test |
| `Simulation.Next` | test.py:66-78 | an iteration sets `zprev` to the pre-step altitude and logs the pre-step time, the acceleration, and the post-step velocity, altitude and control |
| `Simulation.StepEquations` | test.py:66-78 | acceleration is `G - u` of the previous step; velocity becomes `dzdt - (G - u) * DT`; altitude moves with the already updated velocity, `z' == z + dzdt' * DT`; time advances by `DT`; the new control and memory are one call of the law on the new altitude and velocity, with the integral inside the windup bound |
| `Simulation.Simulate` | test.py:60-78 | a run logs at most `fuel` rows; it ends converged or with the fuel spent; it logs nothing exactly when the start state already satisfies the halting test or there is no fuel |
| `Simulation.Iterate` | test.py:60-78 | definition of the state after `k` iterations of the loop body, ignoring the halting test; `IterateLast`, `IterateTime`, `IterateKeepsWindup`, `RunIsIteration` and `RunFinal` prove its properties |
| `Simulation.IterateLast` | test.py:60-78 | `k + 1` iterations are `k` iterations followed by one more loop body |
| `Simulation.IterateTime` | test.py:78 | after `k` iterations the clock reads `t + k * DT` |
| `Simulation.IterateKeepsWindup` | test.py:74 | every state the loop reaches from a bounded integral keeps the integral within the windup bound |
| `Simulation.RunIsIteration` | test.py:60-78 | row `k` of a run is the record of the `k`-th iteration, and no state before the final one satisfies the halting test |
| `Simulation.RunFinal` | test.py:60-78 | the final state of a run is the state after as many iterations as it logged rows |
| `Simulation.RunTimestamps` | test.py:76-78 | row `k` carries time `t + k * DT`, so successive rows are exactly `DT` apart |
| `Simulation.InitialRun` | test.py:40-78 | from the initial conditions the first iteration always runs; its row has time 0, acceleration `G` and velocity `-G * DT`; row `k` has time `k * DT` |
| `Simulation.SignConvention` | test.py:68-70 | from rest with no control, one step gives acceleration `9.80665` and velocity `-0.00980665` |
| `Simulation.ConvergedAfterStep` | test.py:63-72 | after an iteration the halting test holds exactly when the new velocity is below `1e-4` in magnitude |
| `Simulation.Simulator.constructor` | test.py:40-58 | the loop variables hold the initial conditions, the log is empty, and the controller is a fresh one with the simulation's tuning and zero memory |
| `Simulation.Simulator.Halted` | test.py:63 | definition of the halting test on the loop variables; its contract only rearranges it as `z` lying strictly within `1e-7` of `zprev` |
| `Simulation.Simulator.Step` | test.py:66-78 | the new loop variables and controller memory are those of `Next` on the old ones, and exactly that iteration's row is appended to the log |
| `Simulation.Simulator.Run` | test.py:60-78 | the loop leaves the state `Simulate` ends in, appends exactly the rows `Simulate` logs, and reports their number |

## Left out

- Writing the CSV file is left out because it is I/O: the file name built by `%` formatting, the header line, the three-decimal row formatting and closing the file (test.py:54-56,76,80). The record sequence `rows` stands in for the file.
- Plotting with numpy and matplotlib is left out because it is a foreign library call and user interface: test.py:24-35,82 and display.py.
- The wall-clock demo loop in pidcontroller.py:41-92 is left out because it depends on the clock (`time()`) and on `print`.
- Floating-point rounding, NaN and infinities are left out, because every quantity is a real. The constants `DT`, `G` and `1e-7` are exact decimals here.
- Convergence of the altitude to the target is not stated, because it is a claim about the closed-loop dynamics, not about the code. This includes any tolerance around 50 m.
- Simulator.Run: the program's loop is unbounded and stops only on convergence. The model runs at most `fuel` iterations, and its termination for the simulation's constants is not proved.
