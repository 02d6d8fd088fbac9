/** What successive PID_Run calls on one record do: the caller's control loop
    feeds the controller a sequence of samples, one PID_Run call each. */
module PidRuns {
  import opened TruncDivision
  import opened Pid

  /** The arguments of one PID_Run call. */
  datatype Sample = Sample(setpoint: int, processVariable: int, deltaTime: int)

  /** The record after a sequence of calls, and the outputs in call order. */
  datatype Trace = Trace(final: PidState, outputs: seq<int>)

  function Error(x: Sample): int
  {
    x.setpoint - x.processVariable
  }

  /** Every call has a non-zero time step, as PID_Run needs. */
  predicate NonZeroSteps(xs: seq<Sample>)
  {
    forall i :: 0 <= i < |xs| ==> xs[i].deltaTime != 0
  }

  /** The sum of the time-weighted errors of the samples. */
  function Accumulated(xs: seq<Sample>): int
  {
    if xs == [] then 0 else Error(xs[0]) * xs[0].deltaTime + Accumulated(xs[1..])
  }

  /** Runs the samples through Step in order, starting from `s`. */
  function RunAll(s: PidState, xs: seq<Sample>): (t: Trace)
    requires NonZeroSteps(xs)
    ensures |t.outputs| == |xs|
    decreases |xs|
  {
    if xs == [] then Trace(s, [])
    else
      var r := Step(s, xs[0].setpoint, xs[0].processVariable, xs[0].deltaTime);
      var rest := RunAll(r.next, xs[1..]);
      Trace(rest.final, [r.output] + rest.outputs)
  }

  /** Across any number of calls the gains and `prevError` stay as they were,
      and `integral` grows by exactly the time-weighted errors. */
  lemma {:induction false} RunAllFinal(s: PidState, xs: seq<Sample>)
    requires NonZeroSteps(xs)
    ensures RunAll(s, xs).final == s.(integral := s.integral + Accumulated(xs))
    decreases |xs|
  {
    if xs != [] {
      var r := Step(s, xs[0].setpoint, xs[0].processVariable, xs[0].deltaTime);
      RunAllFinal(r.next, xs[1..]);
    }
  }

  /** One more call after a run extends the trace by that call's Step: a
      caller that invokes `TPID.Run` once per sample therefore keeps the
      object's `State()` equal to `RunAll(start, samples so far).final`, and
      its outputs equal `RunAll(start, samples so far).outputs`. */
  lemma {:induction false} RunAllSnoc(s: PidState, xs: seq<Sample>, x: Sample)
    requires NonZeroSteps(xs)
    requires x.deltaTime != 0
    ensures NonZeroSteps(xs + [x])
    ensures var before := RunAll(s, xs);
            var r := Step(before.final, x.setpoint, x.processVariable, x.deltaTime);
            RunAll(s, xs + [x]) == Trace(r.next, before.outputs + [r.output])
    decreases |xs|
  {
    assert NonZeroSteps(xs + [x]);
    if xs == [] {
      assert [x][1..] == [];
    } else {
      var r := Step(s, xs[0].setpoint, xs[0].processVariable, xs[0].deltaTime);
      RunAllSnoc(r.next, xs[1..], x);
      assert (xs + [x])[1..] == xs[1..] + [x];
    }
  }

  /** After PID_Init, `prevError` is still 0 after any number of calls. */
  lemma PrevErrorStaysZero(kP: int, kI: int, kD: int, xs: seq<Sample>)
    requires NonZeroSteps(xs)
    ensures RunAll(Initial(kP, kI, kD), xs).final.prevError == 0
    ensures RunAll(Initial(kP, kI, kD), xs).final.integral == Accumulated(xs)
  {
    RunAllFinal(Initial(kP, kI, kD), xs);
  }

  /** The output of the i-th call in closed form: the integral term sees every
      sample up to and including this one, and the derivative is always taken
      against the starting `prevError`. */
  lemma {:induction false} RunAllOutput(s: PidState, xs: seq<Sample>, i: nat)
    requires NonZeroSteps(xs)
    requires i < |xs|
    ensures RunAll(s, xs).outputs[i]
            == Error(xs[i]) * s.kP
               + (s.integral + Accumulated(xs[..i + 1])) * s.kI
               + TruncDiv(Error(xs[i]) - s.prevError, xs[i].deltaTime) * s.kD
    decreases |xs|
  {
    var r := Step(s, xs[0].setpoint, xs[0].processVariable, xs[0].deltaTime);
    if i == 0 {
      assert xs[..1][1..] == [];
    } else {
      RunAllOutput(r.next, xs[1..], i - 1);
      assert xs[..i + 1][1..] == xs[1..][..i];
    }
  }

  /** With `kI == 0` and `kD == 0` every output is the error times `kP`,
      whatever the time steps and whatever came before. */
  lemma ProportionalOnly(s: PidState, xs: seq<Sample>)
    requires NonZeroSteps(xs)
    requires s.kI == 0 && s.kD == 0
    ensures forall i :: 0 <= i < |xs| ==> RunAll(s, xs).outputs[i] == Error(xs[i]) * s.kP
  {
    forall i | 0 <= i < |xs|
      ensures RunAll(s, xs).outputs[i] == Error(xs[i]) * s.kP
    {
      RunAllOutput(s, xs, i);
      ZeroTimes(s.kI, s.integral + Accumulated(xs[..i + 1]));
      ZeroTimes(s.kD, TruncDiv(Error(xs[i]) - s.prevError, xs[i].deltaTime));
    }
  }

  /** Calls that all have error `e` and time step `dt` accumulate `e*dt`
      each, whatever their setpoints and process variables. */
  lemma {:induction false} AccumulatedConstant(xs: seq<Sample>, e: int, dt: int)
    requires forall i :: 0 <= i < |xs| ==> Error(xs[i]) == e && xs[i].deltaTime == dt
    ensures Accumulated(xs) == |xs| * (e * dt)
  {
    if xs != [] {
      AccumulatedConstant(xs[1..], e, dt);
    }
  }

  lemma {:induction false} AccumulatedZero(xs: seq<Sample>)
    requires forall i :: 0 <= i < |xs| ==> Error(xs[i]) == 0
    ensures Accumulated(xs) == 0
  {
    if xs != [] {
      AccumulatedZero(xs[1..]);
    }
  }

  /** The i-th of `n` calls that all have error `e` and time step `dt`, from
      a freshly initialised controller: its integral term is (i+1)*(e*dt) and
      its derivative term is e/dt, as `prevError` is still 0. */
  lemma ConstantErrorAt(kP: int, kI: int, kD: int, xs: seq<Sample>, e: int, dt: int, i: nat)
    requires dt != 0
    requires forall j :: 0 <= j < |xs| ==> Error(xs[j]) == e && xs[j].deltaTime == dt
    requires i < |xs|
    ensures NonZeroSteps(xs)
    ensures RunAll(Initial(kP, kI, kD), xs).outputs[i]
            == e * kP + (i + 1) * (e * dt) * kI + TruncDiv(e, dt) * kD
  {
    RunAllOutput(Initial(kP, kI, kD), xs, i);
    var prefix := xs[..i + 1];
    assert forall j :: 0 <= j < |prefix| ==> Error(prefix[j]) == e && prefix[j].deltaTime == dt;
    AccumulatedConstant(prefix, e, dt);
  }

  /** `n` calls that all have error `e` and time step `dt`, from a freshly
      initialised controller, whatever their setpoints: `integral` ends at
      n*(e*dt), the k-th output (counting from 1) has integral term k*(e*dt),
      and the derivative term is e/dt every time. */
  lemma ConstantError(kP: int, kI: int, kD: int, xs: seq<Sample>, e: int, dt: int)
    requires dt != 0
    requires forall i :: 0 <= i < |xs| ==> Error(xs[i]) == e && xs[i].deltaTime == dt
    ensures NonZeroSteps(xs)
    ensures RunAll(Initial(kP, kI, kD), xs).final.integral == |xs| * (e * dt)
    ensures forall i :: 0 <= i < |xs| ==>
              RunAll(Initial(kP, kI, kD), xs).outputs[i]
              == e * kP + (i + 1) * (e * dt) * kI + TruncDiv(e, dt) * kD
  {
    PrevErrorStaysZero(kP, kI, kD, xs);
    AccumulatedConstant(xs, e, dt);
    forall i | 0 <= i < |xs|
      ensures RunAll(Initial(kP, kI, kD), xs).outputs[i]
              == e * kP + (i + 1) * (e * dt) * kI + TruncDiv(e, dt) * kD
    {
      ConstantErrorAt(kP, kI, kD, xs, e, dt, i);
    }
  }

  /** Pure integral mode: with `kP == 0` and `kD == 0` and `n` calls that all
      have error `e` and time step `dt`, the last output is kI*e*dt*n. */
  lemma IntegralOnly(kI: int, xs: seq<Sample>, e: int, dt: int)
    requires dt != 0
    requires |xs| > 0
    requires forall i :: 0 <= i < |xs| ==> Error(xs[i]) == e && xs[i].deltaTime == dt
    ensures NonZeroSteps(xs)
    ensures RunAll(Initial(0, kI, 0), xs).outputs[|xs| - 1] == kI * e * dt * |xs|
  {
    ConstantError(0, kI, 0, xs, e, dt);
    Regroup(kI, e, dt, |xs|);
  }

  lemma ZeroTimes(x: int, y: int)
    requires x == 0
    ensures x * y == 0
  {
  }

  lemma Regroup(k: int, e: int, dt: int, n: int)
    requires dt != 0
    ensures 0 * e + n * (e * dt) * k + TruncDiv(e, dt) * 0 == k * e * dt * n
  {
  }

  /** One call of a run in which the setpoint always equals the process
      variable, from zero `integral` and zero `prevError`: it outputs 0. */
  lemma ZeroErrorAt(s: PidState, xs: seq<Sample>, i: nat)
    requires NonZeroSteps(xs)
    requires s.integral == 0 && s.prevError == 0
    requires forall j :: 0 <= j < |xs| ==> Error(xs[j]) == 0
    requires i < |xs|
    ensures RunAll(s, xs).outputs[i] == 0
  {
    RunAllOutput(s, xs, i);
    var prefix := xs[..i + 1];
    assert forall j :: 0 <= j < |prefix| ==> Error(prefix[j]) == 0;
    AccumulatedZero(prefix);
    TruncDivZero(xs[i].deltaTime);
    var e, acc, d := Error(xs[i]), Accumulated(prefix), TruncDiv(Error(xs[i]) - s.prevError, xs[i].deltaTime);
    ZeroTimes(e, s.kP);
    ZeroTimes(s.integral + acc, s.kI);
    ZeroTimes(d, s.kD);
  }

  /** When the setpoint equals the process variable on every call, a
      controller starting with zero `integral` and zero `prevError` keeps
      `integral` at 0 and outputs 0 every time. */
  lemma ZeroError(s: PidState, xs: seq<Sample>)
    requires NonZeroSteps(xs)
    requires s.integral == 0 && s.prevError == 0
    requires forall i :: 0 <= i < |xs| ==> xs[i].setpoint == xs[i].processVariable
    ensures RunAll(s, xs).final == s
    ensures forall i :: 0 <= i < |xs| ==> RunAll(s, xs).outputs[i] == 0
  {
    assert forall i :: 0 <= i < |xs| ==> Error(xs[i]) == 0;
    AccumulatedZero(xs);
    RunAllFinal(s, xs);
    forall i | 0 <= i < |xs|
      ensures RunAll(s, xs).outputs[i] == 0
    {
      ZeroErrorAt(s, xs, i);
    }
  }

  /** The two-call example, on record values: after PID_Init with gains
      2, 1, 1 the calls (10, 0, 1) and (10, 5, 1) output 40 and 30. */
  lemma TwoStepExample()
    ensures RunAll(Initial(2, 1, 1), [Sample(10, 0, 1), Sample(10, 5, 1)]).outputs == [40, 30]
  {
    var xs := [Sample(10, 0, 1), Sample(10, 5, 1)];
    var r0 := Step(Initial(2, 1, 1), 10, 0, 1);
    assert r0.next == PidState(2, 1, 1, 10, 0) && r0.output == 40;
    var r1 := Step(r0.next, 10, 5, 1);
    assert r1.output == 30;
    assert xs[1..] == [Sample(10, 5, 1)] && xs[1..][1..] == [];
  }

  /** Two calls on a TPID object declared by a client and initialised with
      gains 2, 1, 1. The second derivative is (5 - 0) / 1, not (5 - 10) / 1,
      because PID_Run does not store the first call's error: the output is
      5*2 + 15*1 + 5*1. The outputs are those of RunAll on record values. */
  method TwoRunExample() returns (first: int, second: int)
    ensures first == 40
    ensures second == 30
    ensures [first, second] == RunAll(Initial(2, 1, 1), [Sample(10, 0, 1), Sample(10, 5, 1)]).outputs
  {
    var pid := new TPID();
    pid.Init(2, 1, 1);
    first := pid.Run(10, 0, 1);
    second := pid.Run(10, 5, 1);
    TwoStepExample();
  }

  /** A caller's control loop: declare a TPID, initialise it, and call Run
      once per sample. The object ends in the record RunAll computes on values
      and the outputs are RunAll's, so every lemma above about RunAll holds of
      the object. */
  method ControlLoop(kP: int, kI: int, kD: int, xs: seq<Sample>) returns (pid: TPID, outs: seq<int>)
    requires NonZeroSteps(xs)
    ensures pid.State() == RunAll(Initial(kP, kI, kD), xs).final
    ensures outs == RunAll(Initial(kP, kI, kD), xs).outputs
  {
    pid := new TPID();
    pid.Init(kP, kI, kD);
    outs := [];
    var i := 0;
    while i < |xs|
      invariant 0 <= i <= |xs|
      invariant NonZeroSteps(xs[..i])
      invariant pid.State() == RunAll(Initial(kP, kI, kD), xs[..i]).final
      invariant outs == RunAll(Initial(kP, kI, kD), xs[..i]).outputs
    {
      RunAllSnoc(Initial(kP, kI, kD), xs[..i], xs[i]);
      assert xs[..i] + [xs[i]] == xs[..i + 1];
      var out := pid.Run(xs[i].setpoint, xs[i].processVariable, xs[i].deltaTime);
      outs := outs + [out];
      i := i + 1;
    }
    assert xs[..i] == xs;
  }
}
