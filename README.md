# Integer PID controller

A model of the PID controller library in `pid.c`: a `TPID` record holding
three integer gains (`kP`, `kI`, `kD`) and the running state (`integral`,
`prevError`), `PID_Init`, which sets the gains and zeroes the state, and
`PID_Run`, which performs one controller step on the record passed by
reference and returns the weighted sum of the proportional, integral and
derivative terms.

The project has three modules:

- `TruncDivision` (`trunc_div.dfy`): C's integer division, which truncates
  toward zero, as `TruncDiv`, with its characterisation (the magnitude and
  sign of the quotient, the bracket `Abs(q)*Abs(b) <= Abs(a) < Abs(q)*Abs(b) + Abs(b)`, the
  bounds on the remainder) and a proof that this characterisation determines
  the quotient. Dafny's own `/` is Euclidean and is not used for the
  derivative.
- `Pid` (`pid.dfy`): the record as a value (`PidState`), one step on it
  (`Step`), and the class `TPID` whose methods `Init` and `Run` update the
  fields in place as `PID_Init` and `PID_Run` do. `Run`'s postcondition
  names every field afterwards and the output, and ties both to `Step`.
- `PidRuns` (`pid_runs.dfy`): a sequence of `PID_Run` calls (`RunAll`) and
  what it does over any number of calls: the gains and `prevError` never
  change, `integral` is the sum of the time-weighted errors, each output in
  closed form, pure-proportional mode, a constant error, and a run with no
  error. These lemmas are stated about record values; they apply to a
  `TPID` object because `Run`'s postcondition makes the object's `State()`
  after each call the `Step` of its `State()` before, and `RunAllSnoc`
  shows that one more `Step` after a run is the run extended by one call.
  So a caller that starts from `Init` and calls `Run` once per sample
  keeps `State() == RunAll(Initial(kP, kI, kD), samples so far).final`,
  and its outputs are `RunAll(...).outputs`. `ControlLoop` is such a
  caller for any list of samples, and `TwoRunExample` for two fixed calls.

### The code, not the textbook recurrence

The comment on the record (`pid.c:19`) calls `prevError` "the previous error",
and a textbook PID stores each step's error for the next derivative. `PID_Run`
does not: it never assigns `pid.prevError`, so the field keeps the 0 that
`PID_Init` stored and every derivative is `(error - 0) / deltaTime`. The model
follows the code. After `PID_Init(pid, 2, 1, 1)` the calls `PID_Run(pid, 10,
0, 1)` and `PID_Run(pid, 10, 5, 1)` return 40 and 30 (the second is
5*2 + 15*1 + 5*1); a controller that stored the error would return 20 the
second time. `TwoRunExample` (on an object) and `TwoStepExample` (on record values)
prove the 40 and 30.

`deltaTime == 0` divides by zero at `pid.c:74`, which is undefined in C; it
is a precondition of `Run` and `Step`, so a zero time step is not something
the model can be asked about.

## Model

| member | source | states |
|---|---|---|
| Pid.Initial | pid.c:39-49 | the record as `PID_Init` leaves it: the given gains, `integral` and `prevError` 0 (a definition; its properties are stated by `Pid.TPID.Init`, `Pid.FirstStepAfterInit` and the `PidRuns` lemmas) |
| Pid.Step | pid.c:63-80 | `PID_Run` on a record value: the new record with `integral` increased by the time-weighted error, and the output with the derivative taken against `prevError` (a definition; `Pid.TPID.Run` is tied to it and the `PidRuns` lemmas state its properties) |
| TruncDivision.TruncDiv | pid.c:74 | the quotient of C's `/`: its magnitude is the Euclidean quotient of the magnitudes, it is positive only when the operands have the same sign and negative only when their signs differ |
| TruncDivision.TruncDivBracket | pid.c:74 | the magnitude of the quotient is the number of whole divisors that fit in the dividend: `Abs(q)*Abs(b) <= Abs(a) < Abs(q)*Abs(b) + Abs(b)` |
| TruncDivision.TruncDivRemainder | pid.c:74 | `Abs(q*b) <= Abs(a)`, the remainder `a - q*b` is smaller than `Abs(b)` in magnitude, and `q*b` lies between 0 and `a` (truncation toward zero) |
| TruncDivision.TruncDivUnique | pid.c:74 | any integer meeting the bracket and the sign rule equals `TruncDiv`, so they define C's division independently of its body |
| TruncDivision.TruncDivZero | pid.c:74 | zero divided by any non-zero time step is zero |
| TruncDivision.TruncDivOddInDividend | pid.c:74 | negating the dividend negates the quotient |
| TruncDivision.TruncDivOddInDivisor | pid.c:74 | negating the divisor negates the quotient |
| TruncDivision.TruncDivAgreesWithEuclidean | pid.c:74 | on a non-negative dividend and a positive divisor C's quotient equals Dafny's `/` |
| TruncDivision.TruncDivDiffersFromEuclidean | pid.c:74 | on a negative dividend they differ: C gives -7 / 2 == -3, Dafny's `/` gives -4 |
| Pid.TPID.Init | pid.c:39-49 | afterwards `kP`, `kI`, `kD` equal the arguments and `integral` and `prevError` are 0 |
| Pid.TPID.Run | pid.c:63-80 | requires `deltaTime != 0`; only `integral` changes, by `(setpoint - processVariable) * deltaTime`; `kP`, `kI`, `kD` and `prevError` are unchanged; the output is `error*kP + integral'*kI + TruncDiv(error - prevError, deltaTime)*kD` with the updated integral; the new record and the output are those of `Step` |
| Pid.FirstStepAfterInit | pid.c:39-80 | the first step after `PID_Init` leaves `integral == error*deltaTime`, `prevError == 0`, and outputs `e*kP + e*dt*kI + TruncDiv(e, dt)*kD` |
| Pid.DerivativeTruncates | pid.c:74 | the derivative times the time step is no larger than the change in error in magnitude, misses it by less than one time step, and has no sign opposite to that of the exact quotient |
| PidRuns.RunAll | pid.c:63-80 | a sequence of calls produces one output per call |
| PidRuns.Accumulated | pid.c:70 | the sum over the calls of `error * deltaTime`, the reference against which `RunAllFinal`, `PrevErrorStaysZero`, `RunAllOutput` and `ConstantError` state `integral` (a definition) |
| PidRuns.RunAllSnoc | pid.c:63-80 | one more call after any run extends the record and the outputs by exactly that call's `Step`, so repeated `TPID.Run` calls on one object follow `RunAll` |
| PidRuns.RunAllFinal | pid.c:63-80 | after any number of calls the gains and `prevError` are as before and `integral` has grown by exactly the sum of the time-weighted errors |
| PidRuns.PrevErrorStaysZero | pid.c:39-80 | after `PID_Init` and any number of calls `prevError` is still 0 and `integral` is the sum of the time-weighted errors |
| PidRuns.RunAllOutput | pid.c:66-77 | the i-th output in closed form: error*kP, plus the starting integral and the time-weighted errors of calls 0..i times kI, plus `TruncDiv` of the error minus the starting `prevError` times kD |
| PidRuns.ProportionalOnly | pid.c:77 | with `kI == 0` and `kD == 0` every output is the error times `kP`, whatever the time steps and the history |
| PidRuns.ConstantErrorAt | pid.c:66-77 | the i-th of n calls with the same error `e` and time step `dt` (any setpoints) after `PID_Init` outputs `e*kP + (i+1)*(e*dt)*kI + TruncDiv(e, dt)*kD` |
| PidRuns.ConstantError | pid.c:39-80 | n calls with the same error `e` and time step `dt` (any setpoints) after `PID_Init` leave `integral == n*(e*dt)`, and every output is as in `ConstantErrorAt` |
| PidRuns.IntegralOnly | pid.c:70-77 | with `kP == 0` and `kD == 0`, the last of n calls with the same error `e` and time step `dt` after `PID_Init` outputs `kI*e*dt*n` |
| PidRuns.ZeroErrorAt | pid.c:66-77 | from zero `integral` and `prevError`, in a run with no error, each output is 0 |
| PidRuns.ZeroError | pid.c:66-77 | when the setpoint equals the process variable on every call, from zero `integral` and `prevError`, the record is unchanged at the end (`integral` stays 0) and every output is 0 |
| PidRuns.TwoStepExample | pid.c:39-80 | on record values, `PID_Init(2, 1, 1)` followed by the calls (10, 0, 1) and (10, 5, 1) outputs 40 and 30 |
| PidRuns.TwoRunExample | pid.c:39-80 | on a `TPID` object allocated by a client module, `Init(2, 1, 1)` then `Run(10, 0, 1)` and `Run(10, 5, 1)` return 40 and 30, the same outputs as `RunAll` on record values |
| PidRuns.ControlLoop | pid.c:39-80 | a caller that declares a `TPID`, runs `PID_Init` and then `PID_Run` once per sample ends with the record `RunAll` computes from `Initial` and has collected exactly `RunAll`'s outputs |

## Left out

- The `#pragma systemFile` directive (`pid.c:1`): a compiler hint with no behaviour.
- Pid.TPID.Run: does not model the fixed width of C `int`; `integral` and the output are mathematical integers, so overflow and wrap-around of the platform's `int` are not captured (the code does not check for them and the width is platform-specific).
- Pid.TPID.Run: a zero `deltaTime` is excluded by a precondition rather than modelled as an error, because the division at `pid.c:74` is undefined behaviour in C and the code has no guard.
- Fields before `PID_Init`: `TPID`'s constructor takes no arguments and sets no field, so any module can declare a `TPID` (as a C caller declares the struct) and its fields are arbitrary, like an uninitialised C struct, until `Init` runs; nothing is proved about a record that has not been through `Init`.
- Anti-windup, output clamping, derivative filtering and storing the error into `prevError` are not in the code and are not in the model.
