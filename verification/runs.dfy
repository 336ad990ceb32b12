/** Properties of whole runs, read off the history a run returns: exactness
    for constant fields, and the continuity of the dense output across steps
    under each commit rule. */
module RunProperties {
  import opened Vectors
  import opened Tableau
  import opened DenseOutput
  import opened StageEngine
  import opened ResultTable
  import opened Driver

  /** The exact solution of `x' = v` through `(t0, x0)`, at time `tau`. */
  function Drift(x0: Vec, v: Vec, t0: real, tau: real): (r: Vec)
    requires |x0| == |v|
    ensures |r| == |x0|
  {
    Add(x0, Scale(tau - t0, v))
  }

  lemma DriftAtStart(x0: Vec, v: Vec, t0: real)
    requires |x0| == |v|
    ensures Drift(x0, v, t0, t0) == x0
  {
    assert Scale(t0 - t0, v) == Zero(|v|);
    AddZero(x0);
  }

  /** Moving along the drift from a point on it stays on it. */
  lemma DriftMove(x0: Vec, v: Vec, t0: real, t: real, d: real)
    requires |x0| == |v|
    ensures Add(Drift(x0, v, t0, t), Scale(d, v)) == Drift(x0, v, t0, t + d)
  {
    AddScaleAdd(x0, t - t0, d, t + d - t0, v);
  }

  /** Multiplying by the divisor undoes a division. */
  lemma MulDiv(a: real, h: real)
    requires h > 0.0
    ensures h * (a / h) == a
  {
  }

  /** When every stage of a step is `v`, a step that starts on the drift
      keeps its interpolant on the drift, at every time. */
  lemma ConstantFieldSample(v: Vec, x0: Vec, t0: real, x: Vec, t: real, h: real, K: seq<Vec>, tau: real)
    requires |v| == |x0| == |x| && h > 0.0 && |K| == Stages
    requires forall j :: 0 <= j < Stages ==> K[j] == v
    requires x == Drift(x0, v, t0, t)
    ensures AllOfLength(K, |x|) && DenseSample(x, t, h, K, tau) == Drift(x0, v, t0, tau)
  {
    MulDiv(tau - t, h);
    UniformInterpolant(x, h, K, v, (tau - t) / h, tau - t);
    DriftMove(x0, v, t0, t, tau - t);
  }

  // `Staged`, `Linked`, `Tiled` and `Tiles` below take `History` apart
  // (`HistoryParts`) into the pieces the trace lemmas use. Each lemma
  // assumes only the piece it needs, so its proof does not see the error
  // estimate, the commit chain or the row contents when it has no use for
  // them; `Tiles` keeps just the row ranges for the coverage induction.

  /** What the trace lemmas need of a sound step: the state has the
      problem's dimension and the stages are the field's at the step's
      start. */
  ghost predicate Staged(p: Problem, f: Rhs, trace: seq<StepRecord>)
  {
    forall i :: 0 <= i < |trace| ==>
      |trace[i].x| == |p.x0| && Dimensioned(f, |p.x0|) && trace[i].K == AllStages(f, trace[i].x, trace[i].t, trace[i].h)
  }

  /** The links of the chain: the first step starts at `(t0, x0)` and each
      later one where the one before it ended. */
  predicate Linked(p: Problem, rule: CommitRule, trace: seq<StepRecord>)
  {
    (forall i :: 0 <= i < |trace| ==> Shaped(trace[i]))
    && (forall i :: 0 <= i < |trace| - 1 ==>
      trace[i + 1].t == trace[i].t + trace[i].h
      && trace[i + 1].x == Committed(rule, trace[i].x, trace[i].h, trace[i].K))
    && (|trace| > 0 ==> trace[0].t == p.t0 && trace[0].x == p.x0)
  }

  /** The rows after the initial sample are tiled by the steps, each row
      the sample of its step's interpolant. */
  predicate Tiled(p: Problem, trace: seq<StepRecord>, table: Table)
  {
    (forall i :: 0 <= i < |trace| ==> Shaped(trace[i]) && Emitted(p, trace[i], table))
    && (forall i :: 0 <= i < |trace| - 1 ==> trace[i + 1].first == trace[i].last)
    && (|trace| > 0 ==> trace[0].first == 1)
  }

  lemma HistoryParts(p: Problem, cfg: Settings, f: Rhs, rule: CommitRule,
                     trace: seq<StepRecord>, t: real, x: Vec, table: Table)
    requires History(p, cfg, f, rule, trace, t, x, table)
    ensures Staged(p, f, trace) && Linked(p, rule, trace) && Tiled(p, trace, table) && Tiles(trace)
  {
    if |trace| > 0 {
      assert Sound(p, cfg, f, trace[0]);
    }
    forall i | 0 <= i < |trace|
      ensures |trace[i].x| == |p.x0| && trace[i].K == AllStages(f, trace[i].x, trace[i].t, trace[i].h)
    {
      assert Sound(p, cfg, f, trace[i]);
    }
  }

  /** Under a constant field `v`, a step that starts on the drift ends on
      it, whichever step end it commits. */
  lemma StepOnDrift(f: Rhs, rule: CommitRule, v: Vec, x0: Vec, t0: real, x: Vec, t: real, h: real, K: seq<Vec>, tEnd: real)
    requires |v| == |x0| == |x| && ConstantField(f, v) && Dimensioned(f, |x|)
    requires x == Drift(x0, v, t0, t) && K == AllStages(f, x, t, h) && tEnd == t + h
    ensures Committed(rule, x, h, K) == Drift(x0, v, t0, tEnd)
  {
    ConstantFieldStepEnds(f, v, x, t, h);
    DriftMove(x0, v, t0, t, h);
  }

  /** The steps of a history under the constant field `v`. */
  ghost predicate DriftSteps(p: Problem, f: Rhs, rule: CommitRule, trace: seq<StepRecord>, v: Vec)
  {
    Staged(p, f, trace) && Linked(p, rule, trace) && |v| == |p.x0| && ConstantField(f, v)
  }

  /** Under a constant field `v`, a step of the history that starts on the
      drift hands the next step a start on the drift. */
  lemma LinkOnDrift(p: Problem, f: Rhs, rule: CommitRule, trace: seq<StepRecord>, v: Vec, i: nat)
    requires DriftSteps(p, f, rule, trace, v)
    requires 0 < i < |trace| && trace[i - 1].x == Drift(p.x0, v, p.t0, trace[i - 1].t)
    ensures trace[i].x == Drift(p.x0, v, p.t0, trace[i].t)
  {
    StepOnDrift(f, rule, v, p.x0, p.t0, trace[i - 1].x, trace[i - 1].t, trace[i - 1].h, trace[i - 1].K, trace[i].t);
  }

  /** The first step starts at `(t0, x0)`, and each step that starts on the
      drift hands the next one a start on the drift. */
  predicate DriftRelay(p: Problem, trace: seq<StepRecord>, v: Vec)
    requires |v| == |p.x0|
  {
    (|trace| > 0 ==> trace[0].t == p.t0 && trace[0].x == p.x0)
    && forall i :: 0 < i < |trace| ==>
      trace[i - 1].x == Drift(p.x0, v, p.t0, trace[i - 1].t) ==> trace[i].x == Drift(p.x0, v, p.t0, trace[i].t)
  }

  /** The steps of a history under a constant field relay the drift. */
  lemma DriftRelayHolds(p: Problem, f: Rhs, rule: CommitRule, trace: seq<StepRecord>, v: Vec)
    requires DriftSteps(p, f, rule, trace, v)
    ensures DriftRelay(p, trace, v)
  {
    forall i | 0 < i < |trace| && trace[i - 1].x == Drift(p.x0, v, p.t0, trace[i - 1].t)
      ensures trace[i].x == Drift(p.x0, v, p.t0, trace[i].t)
    {
      LinkOnDrift(p, f, rule, trace, v, i);
    }
  }

  /** Steps that relay the drift all start on it. */
  lemma {:induction false} RelayedOnDrift(p: Problem, trace: seq<StepRecord>, v: Vec, i: nat)
    requires |v| == |p.x0| && DriftRelay(p, trace, v) && i < |trace|
    ensures trace[i].x == Drift(p.x0, v, p.t0, trace[i].t)
    decreases i
  {
    if i == 0 {
      DriftAtStart(p.x0, v, p.t0);
    } else {
      RelayedOnDrift(p, trace, v, i - 1);
    }
  }

  /** Under a constant field `v`, every step of a run starts on the drift
      through `(t0, x0)`. */
  lemma ConstantFieldSteps(p: Problem, f: Rhs, rule: CommitRule, trace: seq<StepRecord>, v: Vec, i: nat)
    requires DriftSteps(p, f, rule, trace, v) && i < |trace|
    ensures trace[i].x == Drift(p.x0, v, p.t0, trace[i].t)
  {
    DriftRelayHolds(p, f, rule, trace, v);
    RelayedOnDrift(p, trace, v, i);
  }

  /** Row `k` of the table holds the drift at the `k`-th output time. */
  predicate RowOnDriftAt(p: Problem, v: Vec, table: Table, k: int)
    requires |v| == |p.x0|
  {
    0 <= k < |table.rows| && table.rows[k] == [GridTime(p, k)] + Drift(p.x0, v, p.t0, GridTime(p, k))
  }

  /** A row a step that starts on the drift emits is on the drift. */
  lemma RowOnDrift(p: Problem, f: Rhs, v: Vec, rec: StepRecord, table: Table, k: int)
    requires Shaped(rec) && Emitted(p, rec, table) && rec.first <= k < rec.last
    requires |v| == |p.x0| == |rec.x| && ConstantField(f, v) && Dimensioned(f, |rec.x|)
    requires rec.K == AllStages(f, rec.x, rec.t, rec.h) && rec.x == Drift(p.x0, v, p.t0, rec.t)
    ensures RowOnDriftAt(p, v, table, k)
  {
    EmittedAt(p, rec, table, k);
    ConstantFieldStages(f, v, rec.x, rec.t, rec.h);
    ConstantFieldSample(v, p.x0, p.t0, rec.x, rec.t, rec.h, rec.K, GridTime(p, k));
  }

  /** The rows a step that starts on the drift emits are on the drift. */
  lemma StepRowsOnDrift(p: Problem, f: Rhs, v: Vec, rec: StepRecord, table: Table)
    requires Shaped(rec) && Emitted(p, rec, table)
    requires |v| == |p.x0| == |rec.x| && ConstantField(f, v) && Dimensioned(f, |rec.x|)
    requires rec.K == AllStages(f, rec.x, rec.t, rec.h) && rec.x == Drift(p.x0, v, p.t0, rec.t)
    ensures forall k :: rec.first <= k < rec.last ==> RowOnDriftAt(p, v, table, k)
  {
    forall k | rec.first <= k < rec.last
      ensures RowOnDriftAt(p, v, table, k)
    {
      RowOnDrift(p, f, v, rec, table, k);
    }
  }

  /** A history under the constant field `v`, with its table. */
  ghost predicate DriftHistory(p: Problem, f: Rhs, rule: CommitRule, trace: seq<StepRecord>, table: Table, v: Vec)
  {
    DriftSteps(p, f, rule, trace, v) && Tiled(p, trace, table) && RowHolds(table, 0, p.x0, p.t0)
  }

  /** The rows written before step `i`: the initial sample, and the rows of
      the steps before `i`. */
  function RowsBefore(trace: seq<StepRecord>, i: nat): int
    requires i <= |trace|
  {
    if i == 0 then 1 else trace[i - 1].last
  }

  /** Step `i` of a history under a constant field emits rows on the drift,
      from where the steps before it stopped. */
  lemma StepRowsAt(p: Problem, f: Rhs, rule: CommitRule, trace: seq<StepRecord>, table: Table, v: Vec, i: nat)
    requires DriftHistory(p, f, rule, trace, table, v) && i < |trace|
    ensures trace[i].first == RowsBefore(trace, i)
    ensures forall k :: trace[i].first <= k < trace[i].last ==> RowOnDriftAt(p, v, table, k)
  {
    ConstantFieldSteps(p, f, rule, trace, v, i);
    StepRowsOnDrift(p, f, v, trace[i], table);
  }

  /** The rows `[first, last)` of the steps follow each other from row 1. */
  predicate Tiles(trace: seq<StepRecord>)
  {
    (forall i :: 0 <= i < |trace| ==> trace[i].first <= trace[i].last)
    && (forall i :: 0 <= i < |trace| - 1 ==> trace[i + 1].first == trace[i].last)
    && (|trace| > 0 ==> trace[0].first == 1)
  }

  /** When row 0 and the rows of every step are in `good`, so is every row
      written before step `i`. */
  lemma {:induction false} RowsCovered(trace: seq<StepRecord>, good: set<int>, i: nat)
    requires Tiles(trace) && 0 in good && i <= |trace|
    requires forall j, k :: 0 <= j < |trace| && trace[j].first <= k < trace[j].last ==> k in good
    ensures forall k :: 0 <= k < RowsBefore(trace, i) ==> k in good
    decreases i
  {
    if i > 0 {
      RowsCovered(trace, good, i - 1);
      assert trace[i - 1].first == RowsBefore(trace, i - 1);
    }
  }

  /** The indices of the rows on the drift. */
  function RowsOnDrift(p: Problem, v: Vec, table: Table): (good: set<int>)
    requires |v| == |p.x0|
    ensures forall k :: k in good <==> RowOnDriftAt(p, v, table, k)
  {
    set k | 0 <= k < |table.rows| && RowOnDriftAt(p, v, table, k)
  }

  /** The rows written by a history under a constant field are on the
      drift. */
  lemma ConstantFieldRows(p: Problem, f: Rhs, rule: CommitRule, trace: seq<StepRecord>, table: Table, v: Vec)
    requires DriftHistory(p, f, rule, trace, table, v) && Tiles(trace)
    ensures forall k :: 0 <= k < RowsBefore(trace, |trace|) ==> RowOnDriftAt(p, v, table, k)
  {
    forall j, k | 0 <= j < |trace| && trace[j].first <= k < trace[j].last
      ensures k in RowsOnDrift(p, v, table)
    {
      StepRowsAt(p, f, rule, trace, table, v, j);
    }
    DriftAtStart(p.x0, v, p.t0);
    assert GridTime(p, 0) == p.t0;
    assert RowOnDriftAt(p, v, table, 0);
    RowsCovered(trace, RowsOnDrift(p, v, table), |trace|);
  }

  /** Where the history leaves a run: at `(t0, x0)` with only the initial
      sample before any step, otherwise at the committed end of the last
      step with the rows up to its last one. */
  lemma ChainEnd(p: Problem, rule: CommitRule, trace: seq<StepRecord>, t: real, x: Vec, table: Table)
    requires Chained(p, rule, trace, t, x, table) && |trace| > 0
    ensures Shaped(trace[|trace| - 1])
    ensures t == trace[|trace| - 1].t + trace[|trace| - 1].h
    ensures x == Committed(rule, trace[|trace| - 1].x, trace[|trace| - 1].h, trace[|trace| - 1].K)
    ensures table.count == trace[|trace| - 1].last
  {
  }

  /** Under a constant field `v`, a run stays on the exact solution: its
      final state and every row of its table are the drift through
      `(t0, x0)` at the row's time, whichever step end it commits. */
  lemma ConstantFieldRun(p: Problem, cfg: Settings, f: Rhs, rule: CommitRule,
                         trace: seq<StepRecord>, t: real, x: Vec, table: Table, v: Vec)
    requires p.step > 0.0 && TableInv(p, table) && History(p, cfg, f, rule, trace, t, x, table)
    requires |v| == |p.x0| && ConstantField(f, v)
    ensures x == Drift(p.x0, v, p.t0, t)
    ensures forall k :: 0 <= k < table.count ==> table.rows[k] == [GridTime(p, k)] + Drift(p.x0, v, p.t0, GridTime(p, k))
  {
    HistoryParts(p, cfg, f, rule, trace, t, x, table);
    assert DriftSteps(p, f, rule, trace, v);
    assert DriftHistory(p, f, rule, trace, table, v);
    ConstantFieldRows(p, f, rule, trace, table, v);
    if |trace| == 0 {
      DriftAtStart(p.x0, v, p.t0);
    } else {
      ChainEnd(p, rule, trace, t, x, table);
      ConstantFieldSteps(p, f, rule, trace, v, |trace| - 1);
      StepOnDrift(f, rule, v, p.x0, p.t0, trace[|trace| - 1].x, trace[|trace| - 1].t, trace[|trace| - 1].h, trace[|trace| - 1].K, t);
    }
    forall k | 0 <= k < table.count
      ensures table.rows[k] == [GridTime(p, k)] + Drift(p.x0, v, p.t0, GridTime(p, k))
    {
      assert RowOnDriftAt(p, v, table, k);
    }
  }

  /** The drift of the zero field stays at its start. */
  lemma ZeroDrift(x0: Vec, t0: real, tau: real)
    ensures Drift(x0, Zero(|x0|), t0, tau) == x0
  {
    ScaleZero(tau - t0, |x0|);
    AddZero(x0);
  }

  /** With the zero field a run never moves: the final state and every row
      of the table hold the initial state. */
  lemma ZeroFieldRun(p: Problem, cfg: Settings, f: Rhs, rule: CommitRule,
                     trace: seq<StepRecord>, t: real, x: Vec, table: Table)
    requires p.step > 0.0 && TableInv(p, table) && History(p, cfg, f, rule, trace, t, x, table)
    requires ConstantField(f, Zero(|p.x0|))
    ensures x == p.x0
    ensures forall k :: 0 <= k < table.count ==> table.rows[k] == [GridTime(p, k)] + p.x0
  {
    ConstantFieldRun(p, cfg, f, rule, trace, t, x, table, Zero(|p.x0|));
    ZeroDrift(p.x0, p.t0, t);
    forall k | 0 <= k < table.count
      ensures table.rows[k] == [GridTime(p, k)] + p.x0
    {
      ZeroDrift(p.x0, p.t0, GridTime(p, k));
    }
  }
}
