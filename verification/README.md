# Dormand–Prince 5(4) integrator with dense output

This project models the numerical core of a small ODE solver. The core is an
adaptive explicit Runge–Kutta integrator built on the Dormand–Prince 5(4)
pair (`TDormandPrinceIntegrator::Run`). It also models the result table that
the integrator fills through its model object (`TModel::addResult`,
`clearResult` and `prepareResult`).

A run works like this:

- It clears and pre-sizes the result table, then writes the initial sample.
- It repeats trial steps until the time reaches the end of the span. Each
  trial:
  - clips the proposed length so the step does not pass the end time;
  - evaluates the seven stages;
  - forms the two step ends `x4` and `x5`;
  - scores their difference with a floored, scaled RMS error measure;
  - proposes the next length through a clamped controller.
- A rejected trial changes only the proposed length.
- An accepted trial writes one row for every output grid time inside the
  step, taken from the dense-output interpolant. It then commits the step.

Modelling conventions:

- `long double` arithmetic is modelled by exact `real`s. State vectors are
  `seq<real>` (module `Vectors`).
- The right-hand side `getRight` is a function parameter `f`. The only
  assumption about it is that it keeps the dimension (`StageEngine.Dimensioned`).
- The machine epsilon `u` is a parameter (`Driver.Settings`).
- The square root of the error measure is not computed. A trial is accepted
  when the mean of squares is at most `e_max²`, and
  `ErrorEstimate.AcceptsBySquares` shows that this decides the same as
  comparing the root.
- The fifth root in the controller is a function parameter `ratioOf`. Only
  its shape is assumed: it is never negative, and it exceeds one exactly when
  its argument does (`StepControl.RootLike`).
- The main loop is bounded by a `fuel` count of trials. `Driver.Run` reports
  whether the end time was reached.
- Which step end an accepted step commits is a parameter
  (`StageEngine.CommitRule`):
  - `AsWritten` commits `x5`, as the code does;
  - `Corrected` commits `x4` (see "Findings").

  Every run-level property is proved for both rules unless it says otherwise.
- `Driver.Run` also returns the history of accepted steps (`StepRecord`s):
  start, length, stages and the rows each step wrote. The run-level lemmas in
  `RunProperties` and `Continuity` are stated over that history.

Modules:

| module | file | what it holds |
|---|---|---|
| `Vectors` | vectors.dfy | vector arithmetic, linear combinations |
| `Tableau` | tableau.dfy | the Butcher tables `C`, `A`, `B4`, `B5` and their identities |
| `DenseOutput` | dense.dfy | the polynomials `b1(θ)`…`b6(θ)` and the interpolant |
| `StageEngine` | stages.dfy | the seven stages, the step ends, the commit rule |
| `ErrorEstimate` | error.dfy | denominators, the squared error measure, acceptance |
| `StepControl` | control.dfy | the next proposed length |
| `ResultTable` | results.dfy | `addResult`, `clearResult`, `prepareResult` |
| `Driver` | driver.dfy | the run: start, trial, emission loop, main loop |
| `RunProperties` | runs.dfy | exactness of whole runs on constant fields |
| `Continuity` | continuity.dfy | continuity of the dense output across steps |

## Model

| member | source | states |
|---|---|---|
| Tableau.Shape | integrator.cpp:15-33 | there are seven nodes, seven stage rows of six coefficients each, and seven entries in each weight vector |
| Tableau.StrictlyLowerTriangular | integrator.cpp:18-26 | the method is explicit: row `i` of `a` has zeros from column `i` on, so stage `i` uses only earlier stages |
| Tableau.RowSums | integrator.cpp:15-26 | every row of `a` sums to its node `c[i]` |
| Tableau.WeightSums | integrator.cpp:28-33 | `b4` and `b5` each sum to one |
| Tableau.FirstSameAsLast | integrator.cpp:15-29 | the last row of `a` equals `b4` without its last entry, `b4[6] = 0` and `c[6] = 1` |
| Tableau.B4Quadrature | integrator.cpp:15-29 | `b4` integrates `1, c, c², c³, c⁴` exactly, which are the quadrature conditions of order five |
| Tableau.B5Quadrature | integrator.cpp:15-33 | `b5` meets the conditions up to `c³` but not for `c⁴`, where its moment is 53929/270000 ≠ 1/5 |
| DenseOutput.WeightsAtZero | integrator.cpp:51-76 | all six dense weights vanish at θ = 0 |
| DenseOutput.WeightsAtOne | integrator.cpp:28-76 | at θ = 1 the six dense weights are the first six entries of `b4` |
| DenseOutput.WeightSum | integrator.cpp:51-76 | for every θ the dense weights sum to θ |
| DenseOutput.Interpolate | integrator.cpp:198-208 | the interpolant has the state's dimension; at θ = 0 it is the step-start state `x`, and at θ = 1 it is the `b4` step end `x4`, with `K[6]` taking no part |
| DenseOutput.UniformInterpolant | integrator.cpp:198-208 | when all seven stages equal `v`, the interpolant at θ is `x + θ·h·v` |
| StageEngine.StepEnd4 | integrator.cpp:152-153 | `x4` has the state's dimension; when all seven stages agree it is the exact move `x + h·K[0]`, so the `b4` weights are consistent |
| StageEngine.StepEnd5 | integrator.cpp:155-156 | `x5` has the state's dimension; when all seven stages agree it is the exact move `x + h·K[0]`, so the `b5` weights are consistent |
| StageEngine.UniformStages | integrator.cpp:152-156 | for weights that sum to one, seven equal stages give the step end `x + h·K[0]` |
| StageEngine.Committed | integrator.cpp:215 | the committed state is `x5` as written and `x4` under the corrected rule; either rule commits the exact move `x + h·K[0]` when all seven stages agree, and the corrected rule commits exactly the point where the step's dense output ends (θ = 1) |
| StageEngine.StagesPrefix | integrator.cpp:119-149 | computing further stages leaves the earlier ones unchanged |
| StageEngine.StageAt | integrator.cpp:119-149 | stage `i` is `f` at `x + h·Σ_{j<i} a[i][j]·K[j]` and time `t + c[i]·h` |
| StageEngine.LastStageAtStepEnd | integrator.cpp:146-153 | the seventh stage is `f` evaluated at `x4` and at `t + h` |
| StageEngine.ConstantFieldStages | integrator.cpp:119-149 | under a constant field `v`, every stage equals `v` |
| StageEngine.ConstantFieldStepEnds | integrator.cpp:152-156 | under a constant field `v`, both step ends are the exact `x + h·v` |
| StageEngine.ConstantFieldInterpolant | integrator.cpp:198-208 | under a constant field `v`, the interpolant at θ is the exact `x + θ·h·v` |
| ErrorEstimate.Denominator | integrator.cpp:168-172 | each denominator is at least 1e-5, at least `\|x4_i\|`, the step-start `\|x0_i\|` and `2u/e_max`, and equals one of them |
| ErrorEstimate.SumSquaresZero | integrator.cpp:161-181 | the partial sum of squared scaled differences is never negative, and it is zero exactly when `x4` and `x5` agree on the summed components |
| ErrorEstimate.EstimateError | integrator.cpp:161-181 | the accumulation loop yields the sum of squared scaled differences; it is never negative, and it is zero exactly when `x4 == x5` |
| ErrorEstimate.MeanSquare | integrator.cpp:183 | `eps_step²` is never negative, and it is zero exactly when `x4 == x5` |
| ErrorEstimate.Accepts | integrator.cpp:191 | the step is accepted exactly when `eps_step²/e_max² ≤ 1`, the quotient whose root the controller takes; a zero error estimate is always accepted |
| ErrorEstimate.AcceptsBySquares | integrator.cpp:183-191 | for `eps ≥ 0`, `eps ≤ e_max` holds exactly when `eps² ≤ e_max²` |
| StepControl.ScaleFactor | integrator.cpp:188 | the divisor lies in `[0.1, 5]`; it is `ratio/0.9` whenever that value lies strictly inside the interval, `0.1` when `ratio/0.9 ≤ 0.1` and `5` when `ratio/0.9 ≥ 5` |
| StepControl.NextStep | integrator.cpp:187-188 | `h_done/5 ≤ h_new ≤ 10·h_done`; `h_new` is positive when `h_done` is; it is shorter after a ratio above 0.9 and longer after one below 0.9; it is exactly `10·h_done` or `h_done/5` at the clamps |
| StepControl.NextStepAntitone | integrator.cpp:188 | a larger ratio never gives a longer next step |
| StepControl.Ratio | integrator.cpp:187 | the ratio is never negative, is zero when the error is zero, and exceeds one exactly when the step is rejected |
| StepControl.RejectedStepShrinks | integrator.cpp:187-192 | after a rejection the next trial is strictly shorter, but no shorter than a fifth |
| StepControl.ExactStepGrows | integrator.cpp:187-188 | after a zero error estimate the next trial is ten times as long |
| ResultTable.Resize | model.cpp:11-12 | resizing keeps the entries the old and new shapes share and zero-fills the rest; the count is untouched |
| ResultTable.Clear | model.cpp:26-31 | clearing leaves a 0×0 matrix with `N = 0` |
| ResultTable.Trunc | model.cpp:38 | the C cast rounds toward zero, for both signs |
| ResultTable.Prepare | model.cpp:33-44 | `trunc((t1 − t0)/step) + 2` rows of `order + 1` columns, and `N = 0` |
| ResultTable.WriteRow | model.cpp:16-20 | column 0 gets `t`, column `i+1` gets `X[i]`, and later columns keep their values |
| ResultTable.AddResult | model.cpp:7-24 | `N` goes up by one; the table grows by one row exactly when `N` equals the row count; row `N` gets `t` and `X`; no other row changes |
| ResultTable.AddAllAfterPrepare | model.cpp:7-44 | after `prepareResult` and `k` calls to `addResult`, `N = k`, there are `max(rows_hint, k)` rows, row `i` holds the `i`-th sample, and the rows not yet written are zero |
| ResultTable.ClearThenPrepare | model.cpp:26-44 | the cleared table does not depend on what came before, and a table prepared after clearing holds only zeros |
| Driver.TrialLength | integrator.cpp:115-116 | the trial length is at most the proposal, never passes the end time, equals the proposal or ends exactly at the end time, and is positive before the end time |
| Driver.Start | integrator.cpp:86-110 | after clear, prepare and writing the first row, the run invariant holds; the first row is `(t0, X0)` and the cursor is at `t0 + step` |
| Driver.AddSample | integrator.cpp:210-211 | writing the sample at the cursor keeps the table invariant, stamps the new row with its grid time and keeps the earlier rows |
| Driver.EmitSamples | integrator.cpp:196-212 | the emission loop writes exactly the grid times in `[t, t + h)`, each as the interpolant at that time; it keeps earlier rows and leaves the cursor at or past `t + h` |
| Driver.Iterate | integrator.cpp:112-216 | one trial: the clipped length, its stages, acceptance exactly when `eps_step² ≤ e_max²`, and the controller's `h_new`. A rejection changes nothing but `h_new`, which shrinks. An acceptance emits the step's rows, advances `t` by `h > 0` and commits the chosen step end |
| Driver.Advance | integrator.cpp:112-216 | one trial keeps the run invariant and the history property; the new trace is the old one, or the old one followed by exactly one accepted step |
| Driver.RunEnd | integrator.cpp:112 | once the loop stops at the end time, `t` equals `t_end` (or `t0` for an empty span) and the cursor is at or past `t_end` |
| Driver.Run | integrator.cpp:80-217 | the time stays within `[t0, t_end]`; row 0 is `(t0, X0)` and row `k` is stamped `t0 + k·step`; every row after the first is the interpolant of the accepted step containing its time and lies before `t_end`; `finished` holds exactly when the end time was reached |
| RunProperties.ConstantFieldSample | integrator.cpp:196-208 | when every stage of a step is `v`, a step that starts on the exact solution of `x' = v` samples that solution at every time |
| RunProperties.StepOnDrift | integrator.cpp:152-156 | under a constant field, a step that starts on the exact solution ends on it, whichever step end it commits |
| RunProperties.ConstantFieldSteps | integrator.cpp:112-216 | under a constant field, every accepted step of a run starts on the exact solution through `(t0, X0)` |
| RunProperties.ConstantFieldRun | integrator.cpp:80-217 | under a constant field `v`, the final state and every written row (`k < N`) are exactly `X0 + (τ − t0)·v` at the row's time |
| RunProperties.ZeroFieldRun | integrator.cpp:80-217 | with `f ≡ 0`, the final state and every emitted state equal `X0` |
| Continuity.SampleAtEnds | integrator.cpp:196-208 | a step's interpolant is `x` at its start time and `x4` at its end time |
| Continuity.StepContinuity | integrator.cpp:152-215 | a step's interpolant ends at the committed state always under the corrected rule, and under the rule as written exactly when the error estimate is zero |
| Continuity.RunContinuity | integrator.cpp:112-217 | for every accepted step of a run, the dense output starts at the step's start state; it ends where the next step starts exactly when the rule is the corrected one or that step's error estimate is zero |
| Continuity.QuarticStepEnd | integrator.cpp:119-156 | on `x' = τ⁴` from `x = [0]`, `t = 0`, `h = 1`, the step end with weights `b` is the fourth moment of `b` |
| Continuity.AsWrittenJump | integrator.cpp:152-216 | on `x' = τ⁴` from `[0]` with `t = 0`, `h = 1`: the interpolant and the corrected commit both reach the exact `[1/5]`, but the code's commit of `x5` gives `[53929/270000]` |

## Left out

- Driver.Start: `getOrder()` is not shown; it is taken to be the dimension of `X0`, so rows have `|X0| + 1` columns (model.cpp:12, 40).
- The machine-epsilon loop in the constructor (integrator.cpp:37-46) relies on floating-point rounding. `u` is a positive parameter instead.
- The rounding of `long double`, and the accuracy of `sqrtl`, `powl` and `fabsl`, are not modelled. All arithmetic is exact.
- ErrorEstimate.EstimateError: it returns the sum of squares, and the run divides it by `n` without taking the root. Acceptance compares squares, which `AcceptsBySquares` shows to be equivalent.
- StepControl.Ratio: the fifth root is the parameter `ratioOf`, and only its sign and its crossing of one are assumed. So `NextStep` is proved for every ratio, not for the value `powl` computes.
- The `k_use_h_in_error` branch (integrator.cpp:84, 177-178) is a compile-time `false`. Only the branch without `h` is modelled.
- Driver.Run: the main loop may stall when the tolerance is never met. The model bounds it by `fuel` trials and reports through `finished` whether `t_end` was reached. A run that needs more trials is not followed past the bound.
- Driver.Run: it requires a state of at least one component. With `n = 0` the code divides zero by zero when it forms `eps_step`.
- Driver.Run: it requires `trunc((t1 − t0)/step) + 2 ≥ 0`. For a long backwards span the code would pass a negative row count to `TMatrix::resize`, and that case is not defined here. The `(int)` overflow of a huge span is not modelled either.
- `TVector` and `TMatrix` are not part of this model. Vectors are sequences, and the matrix is a sequence of rows. `resize` is assumed to keep the overlapping entries and zero-fill new ones (`ResultTable.Resize`).
- The convergence order, periodic-orbit recurrence and step-count claims about real problems are numerical analysis and are not stated.
- custom.cpp and custom.h (the Arenstorf right-hand side), main.cpp (console setup and CSV output) and the Python plotting script are not part of this model.

Behaviour of the code worth knowing:

- `prepareResult` reserves `trunc((t1 − t0)/step) + 2` rows (model.cpp:38).
- The emission test is a strict `t_out < t + h_done` (integrator.cpp:196). So a grid time that coincides with `t_end` gets no row. For example, the span `[0, 1]` with spacing 0.5 yields rows at 0 and 0.5 only, not at 1.0.
- Reserved rows that are never written stay in the matrix as zero rows past `N` (`Driver.TableInv`, `ResultTable.AddAllAfterPrepare`).

## Findings

| source | as written | input that shows it | evidently intended | confidence | as-written member | corrected member |
|---|---|---|---|---|---|---|
| integrator.cpp:28-33 | The vectors are labelled the other way round. `b4` meets every quadrature condition of order five, and `b5` fails the `c⁴` one (its fourth moment is 53929/270000, not 1/5), so `b5` cannot be the fifth-order member. In Dormand and Prince's 1980 table, `b4`'s weights give the fifth-order solution. The code commits `x = x5` (line 215). The dense interpolant, however, ends at `x4` (lines 51-76, 207-208), so the output jumps at every accepted step where `x4 ≠ x5`. | `x' = τ⁴`, `x = [0]`, `t = 0`, `h = 1`. The interpolant at `t + h` is `[1/5]`, but the committed state is `[53929/270000]`. | Commit the fifth-order solution `x4`. The dense output is then continuous across steps, and the seventh stage is the first stage of the next step. | not executed | Continuity.AsWrittenJump | Continuity.RunContinuity |
