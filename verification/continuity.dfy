/** Continuity of the dense output across accepted steps. The interpolant of
    a step starts at the step's start and ends at the `B4` step end; the
    next step starts at the committed state. The run is therefore continuous
    under the corrected commit rule, and under the rule as written only where
    the two step ends happen to agree. */
module Continuity {
  import opened Vectors
  import opened Tableau
  import opened DenseOutput
  import opened StageEngine
  import opened ResultTable
  import opened Driver
  import opened RunProperties

  /** The interpolant of a step takes the step's start state at the step's
      start time and the `B4` step end at the step's end time. */
  lemma SampleAtEnds(x: Vec, t: real, h: real, K: seq<Vec>)
    requires h > 0.0 && |K| == Stages && AllOfLength(K, |x|)
    ensures DenseSample(x, t, h, K, t) == x
    ensures DenseSample(x, t, h, K, t + h) == StepEnd4(x, h, K)
  {
    assert (t - t) / h == 0.0;
    assert (t + h - t) / h == 1.0;
  }

  /** One accepted step: its interpolant ends at the committed state under
      the corrected rule always, and under the rule as written exactly when
      the error estimate of the step is zero. */
  lemma StepContinuity(cfg: Settings, f: Rhs, rule: CommitRule, x: Vec, t: real, h: real, K: seq<Vec>, tEnd: real)
    requires |x| > 0 && cfg.eMax > 0.0 && Dimensioned(f, |x|) && h > 0.0 && K == AllStages(f, x, t, h)
    requires tEnd == t + h
    ensures DenseSample(x, t, h, K, t) == x
    ensures DenseSample(x, t, h, K, tEnd) == Committed(rule, x, h, K)
      <==> rule == Corrected || TrialError(cfg, f, x, t, h) == 0.0
  {
    SampleAtEnds(x, t, h, K);
  }

  /** The state the run is in after step `i` of the history: the start of
      step `i + 1`, or the run's final state after the last step. */
  function StateAfter(trace: seq<StepRecord>, x: Vec, i: nat): Vec
    requires i < |trace|
  {
    if i + 1 < |trace| then trace[i + 1].x else x
  }

  lemma StateAfterStep(p: Problem, rule: CommitRule, trace: seq<StepRecord>, t: real, x: Vec, table: Table, i: nat)
    requires Chained(p, rule, trace, t, x, table) && i < |trace|
    ensures Shaped(trace[i])
    ensures StateAfter(trace, x, i) == Committed(rule, trace[i].x, trace[i].h, trace[i].K)
  {
    if i + 1 == |trace| {
      ChainEnd(p, rule, trace, t, x, table);
    }
  }

  /** Across every accepted step of a run, the dense output starts where
      the step starts, and it ends where the next step starts exactly when
      the rule is the corrected one or the step's error estimate is zero. */
  lemma RunContinuity(p: Problem, cfg: Settings, f: Rhs, rule: CommitRule,
                      trace: seq<StepRecord>, t: real, x: Vec, table: Table, i: nat)
    requires History(p, cfg, f, rule, trace, t, x, table) && i < |trace|
    ensures Shaped(trace[i])
    ensures DenseSample(trace[i].x, trace[i].t, trace[i].h, trace[i].K, trace[i].t) == trace[i].x
    ensures DenseSample(trace[i].x, trace[i].t, trace[i].h, trace[i].K, trace[i].t + trace[i].h) == StateAfter(trace, x, i)
      <==> rule == Corrected || TrialError(cfg, f, trace[i].x, trace[i].t, trace[i].h) == 0.0
  {
    assert Sound(p, cfg, f, trace[i]);
    StateAfterStep(p, rule, trace, t, x, table, i);
    StepContinuity(cfg, f, rule, trace[i].x, trace[i].t, trace[i].h, trace[i].K, trace[i].t + trace[i].h);
  }

  /** `f` is the scalar field `x' = tau^4`. */
  ghost predicate QuarticField(f: Rhs)
  {
    forall y: Vec, tau: real :: |y| == 1 ==> f(y, tau) == [Pow(tau, 4)]
  }

  /** The field `x' = tau^4` exists. */
  lemma QuarticFieldExists()
    ensures QuarticField((y: Vec, tau: real) => [Pow(tau, 4)])
  {
  }

  /** On `x' = tau^4` from `x = [0]` at `t = 0` with `h = 1`, stage `i` is
      `C[i]^4`. */
  lemma QuarticStage(f: Rhs, x: Vec, i: nat)
    requires QuarticField(f) && Dimensioned(f, 1) && x == [0.0] && i < Stages
    ensures AllStages(f, x, 0.0, 1.0)[i] == [Pow(C[i], 4)]
  {
    StageAt(f, x, 0.0, 1.0, i);
  }

  /** With every stage `[C[i]^4]`, the terms the combination sums are
      the terms of the fourth moment. */
  lemma QuarticTerms(b: seq<real>, K: seq<Vec>)
    requires |b| == |K| == Stages && AllOfLength(K, 1)
    requires forall j :: 0 <= j < Stages ==> K[j][0] == Pow(C[j], 4)
    ensures seq(|b|, j requires 0 <= j < |b| => b[j] * K[j][0])
         == seq(Stages, j requires 0 <= j < Stages => b[j] * Pow(C[j], 4))
  {
    forall j | 0 <= j < Stages
      ensures b[j] * K[j][0] == b[j] * Pow(C[j], 4)
      ensures seq(|b|, j requires 0 <= j < |b| => b[j] * K[j][0])[j]
           == seq(Stages, j requires 0 <= j < Stages => b[j] * Pow(C[j], 4))[j]
    {
    }
  }

  /** The step end of the weights `b` on that step is the moment of `b`. */
  lemma QuarticStepEnd(f: Rhs, b: seq<real>, x: Vec)
    requires QuarticField(f) && Dimensioned(f, 1) && x == [0.0] && |b| == Stages
    ensures Combine(x, 1.0, b, AllStages(f, x, 0.0, 1.0)) == [Moment(b, 4)]
  {
    forall i | 0 <= i < Stages
      ensures AllStages(f, x, 0.0, 1.0)[i][0] == Pow(C[i], 4)
    {
      QuarticStage(f, x, i);
    }
    LinCombAt(b, AllStages(f, x, 0.0, 1.0), 1, 0);
    QuarticTerms(b, AllStages(f, x, 0.0, 1.0));
  }

  /** The discontinuity of the rule as written, on a concrete step: for
      `x' = tau^4` from `x = [0]` at `t = 0` with `h = 1` the exact end state
      is `[1/5]`; the interpolant ends there, and so does the state the
      corrected rule commits, but the rule as written commits
      `[53929/270000]`, so the dense output jumps at the step boundary. */
  lemma AsWrittenJump(f: Rhs, x: Vec)
    requires QuarticField(f) && Dimensioned(f, 1) && x == [0.0]
    ensures DenseSample(x, 0.0, 1.0, AllStages(f, x, 0.0, 1.0), 1.0) == [1.0 / 5.0]
    ensures Committed(Corrected, x, 1.0, AllStages(f, x, 0.0, 1.0)) == [1.0 / 5.0]
    ensures Committed(AsWritten, x, 1.0, AllStages(f, x, 0.0, 1.0)) == [53929.0 / 270000.0]
    ensures DenseSample(x, 0.0, 1.0, AllStages(f, x, 0.0, 1.0), 1.0)
      != Committed(AsWritten, x, 1.0, AllStages(f, x, 0.0, 1.0))
  {
    QuarticStepEnd(f, B4, x);
    QuarticStepEnd(f, B5, x);
    B4Quadrature();
    B5Quadrature();
    SampleAtEnds(x, 0.0, 1.0, AllStages(f, x, 0.0, 1.0));
    assert [1.0 / 5.0][0] != [53929.0 / 270000.0][0];
  }
}
