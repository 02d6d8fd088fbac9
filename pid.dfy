/** The integer PID controller of pid.c: the TPID record, PID_Init and PID_Run.

    PID_Run adds the time-weighted error into `integral` and takes the
    derivative against `prevError`, but never stores the new error into
    `prevError`. The model keeps that: `prevError` holds whatever PID_Init put
    there (0) for the life of the controller. */
module Pid {
  import opened TruncDivision

  /** The five fields of a TPID record, as a value. */
  datatype PidState = PidState(kP: int, kI: int, kD: int, integral: int, prevError: int)

  /** What one controller step produces: the record afterwards and the output. */
  datatype StepResult = StepResult(next: PidState, output: int)

  /** The record as PID_Init leaves it. */
  function Initial(kP: int, kI: int, kD: int): PidState
  {
    PidState(kP, kI, kD, 0, 0)
  }

  /** One iteration of PID_Run on a record value. */
  function Step(s: PidState, setpoint: int, processVariable: int, deltaTime: int): StepResult
    requires deltaTime != 0
  {
    var error := setpoint - processVariable;
    var integral := s.integral + error * deltaTime;
    var derivative := TruncDiv(error - s.prevError, deltaTime);
    StepResult(s.(integral := integral), error * s.kP + integral * s.kI + derivative * s.kD)
  }

  /** On a freshly initialised controller the integral term is the error
      weighted by one time step, and the derivative is the error itself divided
      (truncating) by the time step, since `prevError` is 0. */
  lemma FirstStepAfterInit(kP: int, kI: int, kD: int, setpoint: int, processVariable: int, deltaTime: int)
    requires deltaTime != 0
    ensures var e := setpoint - processVariable;
            var r := Step(Initial(kP, kI, kD), setpoint, processVariable, deltaTime);
            && r.next == PidState(kP, kI, kD, e * deltaTime, 0)
            && r.output == e * kP + e * deltaTime * kI + TruncDiv(e, deltaTime) * kD
  {
  }

  /** The derivative PID_Run computes is C's truncating quotient: its product
      with the time step lies between 0 and the change in error, and misses it
      by less than one time step. */
  lemma DerivativeTruncates(s: PidState, setpoint: int, processVariable: int, deltaTime: int)
    requires deltaTime != 0
    ensures var change := setpoint - processVariable - s.prevError;
            var derivative := TruncDiv(change, deltaTime);
            && Abs(derivative * deltaTime) <= Abs(change)
            && Abs(change - derivative * deltaTime) < Abs(deltaTime)
            && (derivative > 0 ==> (change > 0) == (deltaTime > 0))
            && (derivative < 0 ==> (change > 0) == (deltaTime < 0))
  {
  }

  /** A TPID record. Its fields are not set until Init runs; until then they
      hold arbitrary values, as an uninitialised C struct does. */
  class TPID {
    var kP: int
    var kI: int
    var kD: int
    var integral: int
    var prevError: int

    /** Declaring a TPID: storage only, every field left unspecified. */
    constructor ()
    {
    }

    /** The record's fields as a value. */
    ghost function State(): PidState
      reads this
    {
      PidState(kP, kI, kD, integral, prevError)
    }

    /** PID_Init: sets the three gains and zeroes the running state. */
    method Init(kP: int, kI: int, kD: int)
      modifies this
      ensures this.kP == kP && this.kI == kI && this.kD == kD
      ensures integral == 0 && prevError == 0
      ensures State() == Initial(kP, kI, kD)
    {
      this.kP := kP;
      this.kI := kI;
      this.kD := kD;
      integral := 0;
      prevError := 0;
    }

    /** PID_Run: one controller step. Only `integral` changes; the output is
        the weighted sum of the error, the updated integral and the truncated
        derivative taken against the unchanged `prevError`. */
    method Run(setpoint: int, processVariable: int, deltaTime: int) returns (output: int)
      requires deltaTime != 0
      modifies this
      ensures kP == old(kP) && kI == old(kI) && kD == old(kD)
      ensures prevError == old(prevError)
      ensures integral == old(integral) + (setpoint - processVariable) * deltaTime
      ensures output == (setpoint - processVariable) * kP + integral * kI
                        + TruncDiv(setpoint - processVariable - prevError, deltaTime) * kD
      ensures State() == Step(old(State()), setpoint, processVariable, deltaTime).next
      ensures output == Step(old(State()), setpoint, processVariable, deltaTime).output
    {
      var error := setpoint - processVariable;
      integral := integral + error * deltaTime;
      var derivative := TruncDiv(error - prevError, deltaTime);
      output := error * kP + integral * kI + derivative * kD;
    }
  }
}
