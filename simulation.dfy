/**
 * The fixed-step altitude-hold simulation: a point mass under gravity whose
 * vertical acceleration is `G - u`, integrated by semi-implicit Euler steps of
 * `DT` seconds and driven by the altitude PID controller, until two successive
 * altitudes differ by less than `Epsilon`.  Each step appends one record
 * `(t, dzdt2, dzdt, z, u)` to the log.
 */
module Simulation {
  import opened PidController

  const G: real := 9.80665
  const DT: real := 0.001
  const Epsilon: real := 0.0000001

  const AltitudeStart: real := 55.0
  const AltitudeTarget: real := 50.0
  const AltP: real := 5.0
  const VelP: real := 1.5
  const VelI: real := 1.0
  const VelD: real := 0.05

  /** The controller the simulation builds, with the default windup bound. */
  function SimGains(): (g: Gains)
    ensures g.windupMax >= 0.0
  {
    Gains(AltitudeTarget, AltP, VelP, VelI, VelD, 10.0)
  }

  /** One log row: time, acceleration, velocity, altitude and control value. */
  datatype Row = Row(t: real, dzdt2: real, dzdt: real, z: real, u: real)

  /** The loop's variables, with the controller's in-flight errors. */
  datatype SimState = SimState(t: real, z: real, dzdt: real, u: real, zprev: real, pid: Memory)

  datatype StepResult = StepResult(state: SimState, row: Row)

  /** Run of the whole loop: the state it stops in, and the rows it logged. */
  datatype Trajectory = Trajectory(final: SimState, rows: seq<Row>)

  /** The halting test at the top of the loop: the altitude has levelled off. */
  predicate Converged(z: real, zprev: real)
    ensures Converged(z, zprev) <==> zprev - Epsilon < z < zprev + Epsilon
  {
    Abs(z - zprev) < Epsilon
  }

  /** The initial conditions: at rest at the start altitude, with no control yet. */
  function Initial(): (s: SimState)
    ensures !Converged(s.z, s.zprev)
  {
    SimState(0.0, AltitudeStart, 0.0, 0.0, 0.0, Memory(0.0, 0.0))
  }

  /**
   * One iteration of the loop body: snapshot the altitude, take the acceleration
   * from the previous control, subtract it from the velocity, move with the new
   * velocity, ask the controller, log, and advance the clock.
   */
  function Next(s: SimState): (r: StepResult)
    ensures r.state.zprev == s.z
    ensures r.row == Row(s.t, G - s.u, r.state.dzdt, r.state.z, r.state.u)
  {
    var zprev := s.z;
    var dzdt2 := G - s.u;
    var dzdt := s.dzdt - dzdt2 * DT;
    var z := s.z + dzdt * DT;
    var law := Law(SimGains(), s.pid, z, dzdt, DT);
    LawContract(SimGains(), s.pid, z, dzdt, DT);
    var u := law.out.value;
    StepResult(SimState(s.t + DT, z, dzdt, u, zprev, law.next), Row(s.t, dzdt2, dzdt, z, u))
  }

  /**
   * The physics of one step and the controller call it makes: acceleration
   * `G - u` from the previous control, velocity updated by subtraction,
   * altitude moved with the updated velocity, clock advanced by `DT`, and the
   * control value and memory those of one call of the law.
   */
  lemma StepEquations(s: SimState)
    ensures Next(s).row.dzdt2 == G - s.u
    ensures Next(s).state.dzdt == s.dzdt - (G - s.u) * DT
    ensures Next(s).state.z == s.z + Next(s).state.dzdt * DT
    ensures Next(s).state.z == s.z + s.dzdt * DT - (G - s.u) * DT * DT
    ensures Next(s).state.t == s.t + DT
    ensures Abs(Next(s).state.pid.integralError) <= SimGains().windupMax
    ensures Next(s).state.pid.lastError == VelocityError(AltitudeTarget, AltP, Next(s).state.z, Next(s).state.dzdt)
    ensures Law(SimGains(), s.pid, Next(s).state.z, Next(s).state.dzdt, DT) == LawResult(Control(Next(s).state.u), Next(s).state.pid)
  {
  }

  /** The state after `k` iterations, ignoring the halting test. */
  function Iterate(s: SimState, k: nat): (r: SimState)
    decreases k
  {
    if k == 0 then s else Iterate(Next(s).state, k - 1)
  }

  /** Iterating `k + 1` times is iterating `k` times and then once more. */
  lemma {:induction false} IterateLast(s: SimState, k: nat)
    ensures Iterate(s, k + 1) == Next(Iterate(s, k)).state
    decreases k
  {
    if k > 0 {
      IterateLast(Next(s).state, k - 1);
    }
  }

  /**
   * The loop run for at most `fuel` iterations: it stops at the first state that
   * has converged, or when the fuel is spent.
   */
  function Simulate(s: SimState, fuel: nat): (tr: Trajectory)
    ensures |tr.rows| <= fuel
    ensures Converged(tr.final.z, tr.final.zprev) || |tr.rows| == fuel
    ensures tr.rows == [] <==> Converged(s.z, s.zprev) || fuel == 0
    ensures tr.rows == [] ==> tr.final == s
    decreases fuel
  {
    if Converged(s.z, s.zprev) || fuel == 0 then
      Trajectory(s, [])
    else
      var step := Next(s);
      var rest := Simulate(step.state, fuel - 1);
      Trajectory(rest.final, [step.row] + rest.rows)
  }

  /** One unfolding of `Simulate` on a state that has not converged. */
  lemma SimulateUnfold(s: SimState, fuel: nat)
    requires !Converged(s.z, s.zprev) && fuel > 0
    ensures Simulate(s, fuel).final == Simulate(Next(s).state, fuel - 1).final
    ensures Simulate(s, fuel).rows == [Next(s).row] + Simulate(Next(s).state, fuel - 1).rows
  {
  }

  /**
   * A run of `fuel` iterations from `start` has logged `done` in `n` iterations
   * and is now at `cur`, from which the rest of the run continues.
   */
  ghost predicate Resumes(start: SimState, fuel: nat, cur: SimState, n: nat, done: seq<Row>)
  {
    n <= fuel && |done| == n
    && Simulate(start, fuel).final == Simulate(cur, fuel - n).final
    && Simulate(start, fuel).rows == done + Simulate(cur, fuel - n).rows
  }

  lemma ResumesStep(start: SimState, fuel: nat, cur: SimState, n: nat, done: seq<Row>)
    requires Resumes(start, fuel, cur, n, done)
    requires !Converged(cur.z, cur.zprev) && n < fuel
    ensures Resumes(start, fuel, Next(cur).state, n + 1, done + [Next(cur).row])
  {
    SimulateUnfold(cur, fuel - n);
    assert done + ([Next(cur).row] + Simulate(Next(cur).state, fuel - n - 1).rows)
        == (done + [Next(cur).row]) + Simulate(Next(cur).state, fuel - n - 1).rows;
  }

  lemma ResumesEnd(start: SimState, fuel: nat, cur: SimState, n: nat, done: seq<Row>)
    requires Resumes(start, fuel, cur, n, done)
    requires Converged(cur.z, cur.zprev) || n == fuel
    ensures Simulate(start, fuel) == Trajectory(cur, done)
  {
  }

  /** The clock advances by exactly `DT` per iteration. */
  lemma {:induction false} IterateTime(s: SimState, k: nat)
    ensures Iterate(s, k).t == s.t + (k as real) * DT
    decreases k
  {
    if k > 0 {
      StepEquations(s);
      IterateTime(Next(s).state, k - 1);
    }
  }

  /** The windup bound holds in every state the loop reaches from a bounded one. */
  lemma {:induction false} IterateKeepsWindup(s: SimState, k: nat)
    requires Abs(s.pid.integralError) <= SimGains().windupMax
    ensures Abs(Iterate(s, k).pid.integralError) <= SimGains().windupMax
    decreases k
  {
    if k > 0 {
      StepEquations(s);
      IterateKeepsWindup(Next(s).state, k - 1);
    }
  }

  /**
   * Row `k` of a run is what iteration `k` logs, no state before the final one
   * has converged, and the final state is the one after as many iterations as
   * there are rows.
   */
  lemma {:induction false} RunIsIteration(s: SimState, fuel: nat, k: nat)
    requires k < |Simulate(s, fuel).rows|
    ensures Simulate(s, fuel).rows[k] == Next(Iterate(s, k)).row
    ensures !Converged(Iterate(s, k).z, Iterate(s, k).zprev)
    decreases fuel
  {
    if k > 0 {
      RunIsIteration(Next(s).state, fuel - 1, k - 1);
    }
  }

  lemma {:induction false} RunFinal(s: SimState, fuel: nat)
    ensures Simulate(s, fuel).final == Iterate(s, |Simulate(s, fuel).rows|)
    decreases fuel
  {
    if !Converged(s.z, s.zprev) && fuel > 0 {
      RunFinal(Next(s).state, fuel - 1);
    }
  }

  /** Row `k` of a run carries time `s.t + k * DT`, so successive timestamps differ by `DT`. */
  lemma RunTimestamps(s: SimState, fuel: nat, k: nat)
    requires k < |Simulate(s, fuel).rows|
    ensures Simulate(s, fuel).rows[k].t == s.t + (k as real) * DT
    ensures k + 1 < |Simulate(s, fuel).rows| ==> Simulate(s, fuel).rows[k + 1].t == Simulate(s, fuel).rows[k].t + DT
  {
    RunIsIteration(s, fuel, k);
    IterateTime(s, k);
    if k + 1 < |Simulate(s, fuel).rows| {
      RunIsIteration(s, fuel, k + 1);
      IterateTime(s, k + 1);
    }
  }

  /**
   * From the initial conditions the first iteration always runs; its row has
   * time 0, acceleration `G` and velocity `-G * DT`, and later rows are `k * DT`.
   */
  lemma InitialRun(fuel: nat, k: nat)
    requires fuel > 0
    ensures |Simulate(Initial(), fuel).rows| >= 1
    ensures Simulate(Initial(), fuel).rows[0].t == 0.0
    ensures Simulate(Initial(), fuel).rows[0].dzdt2 == G
    ensures Simulate(Initial(), fuel).rows[0].dzdt == -G * DT
    ensures k < |Simulate(Initial(), fuel).rows| ==> Simulate(Initial(), fuel).rows[k].t == (k as real) * DT
  {
    if k < |Simulate(Initial(), fuel).rows| {
      RunTimestamps(Initial(), fuel, k);
    }
  }

  /** From rest with no control, one step gives acceleration `G` and velocity `-G * DT`. */
  lemma SignConvention(s: SimState)
    requires s.dzdt == 0.0 && s.u == 0.0
    ensures Next(s).row.dzdt2 == 9.80665
    ensures Next(s).row.dzdt == -0.00980665
  {
  }

  /**
   * After an iteration, the halting test succeeds exactly when the new velocity
   * is below `Epsilon / DT` in magnitude, because the altitude moved by `dzdt * DT`.
   */
  lemma ConvergedAfterStep(s: SimState)
    ensures Converged(Next(s).state.z, Next(s).state.zprev) <==> Abs(Next(s).state.dzdt) < 0.0001
  {
  }

  /**
   * The variables of the simulation loop, the controller it created, and the
   * rows logged so far.
   */
  class Simulator {
    var t: real
    var z: real
    var dzdt: real
    var u: real
    var zprev: real
    const pid: AltitudePidController
    var rows: seq<Row>

    ghost predicate Valid()
      reads this, pid
    {
      pid.Tuning() == SimGains() && pid.Valid()
    }

    ghost function State(): SimState
      reads this, pid
    {
      SimState(t, z, dzdt, u, zprev, pid.Errors())
    }

    constructor ()
      ensures Valid() && fresh(pid)
      ensures State() == Initial() && rows == []
    {
      t := 0.0;
      z := AltitudeStart;
      dzdt := 0.0;
      u := 0.0;
      zprev := 0.0;
      rows := [];
      pid := new AltitudePidController(AltitudeTarget, AltP, VelP, VelI, VelD);
    }

    predicate Halted()
      reads this
      ensures Halted() <==> zprev - Epsilon < z < zprev + Epsilon
    {
      Converged(z, zprev)
    }

    /** One iteration of the loop body, logging its row. */
    method Step()
      requires Valid()
      modifies this, pid
      ensures Valid()
      ensures State() == Next(old(State())).state
      ensures rows == old(rows) + [Next(old(State())).row]
    {
      zprev := z;
      var dzdt2 := G - u;
      dzdt := dzdt - dzdt2 * DT;
      z := z + dzdt * DT;
      var r := pid.Update(z, dzdt, DT);
      u := r.value;
      rows := rows + [Row(t, dzdt2, dzdt, z, u)];
      t := t + DT;
    }

    /** The loop, for at most `fuel` iterations; `steps` is how many ran. */
    method Run(fuel: nat) returns (steps: nat)
      requires Valid()
      modifies this, pid
      ensures Valid()
      ensures State() == Simulate(old(State()), fuel).final
      ensures rows == old(rows) + Simulate(old(State()), fuel).rows
      ensures steps == |Simulate(old(State()), fuel).rows|
    {
      ghost var start := State();
      ghost var logged := rows;
      ghost var done: seq<Row> := [];
      steps := 0;
      while !Halted() && steps < fuel
        invariant Valid()
        invariant rows == logged + done
        invariant Resumes(start, fuel, State(), steps, done)
        decreases fuel - steps
      {
        ghost var before := State();
        ResumesStep(start, fuel, before, steps, done);
        Step();
        done := done + [Next(before).row];
        steps := steps + 1;
      }
      ResumesEnd(start, fuel, State(), steps, done);
    }
  }
}
