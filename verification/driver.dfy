/** The driver of a run: trial steps from the start time to the end time,
    each one accepted or rejected by the error estimate, with every output
    grid time that falls inside an accepted step written to the result table
    from the dense-output interpolant. */
module Driver {
  import opened Vectors
  import opened Tableau
  import opened DenseOutput
  import opened StageEngine
  import opened ErrorEstimate
  import opened StepControl
  import opened ResultTable

  /** What a model supplies: the span `[t0, t1]`, the output spacing `step`
      and the initial state `x0`. */
  datatype Problem = Problem(t0: real, t1: real, step: real, x0: Vec)

  /** The integrator's settings: the tolerance `e_max` and the roundoff unit
      `u` (the machine epsilon of the floating-point type). */
  datatype Settings = Settings(eMax: real, u: real)

  /** What the integrator needs of its inputs: a positive output spacing, a
      state of at least one component, a positive tolerance and roundoff
      unit, and a span for which the reserved row count is not negative. */
  predicate ValidSetup(p: Problem, cfg: Settings)
  {
    p.step > 0.0 && |p.x0| > 0 && cfg.eMax > 0.0 && cfg.u > 0.0 && RowsHint(p.t0, p.t1, p.step) >= 0
  }

  /** Output grid time number `k`: `t0 + k * step`. */
  function GridTime(p: Problem, k: nat): real
  {
    p.t0 + (k as real) * p.step
  }

  /** Consecutive grid times are one spacing apart. */
  lemma GridNext(p: Problem, k: nat)
    ensures GridTime(p, k + 1) == GridTime(p, k) + p.step
  {
  }

  function MaxInt(a: int, b: int): int
  {
    if a < b then b else a
  }

  /** The length of the next trial: the proposed length, cut back so that the
      step does not pass the end time. */
  function TrialLength(t: real, tEnd: real, hNew: real): (h: real)
    ensures h <= hNew && t + h <= tEnd
    ensures h == hNew || t + h == tEnd
    ensures t < tEnd && hNew > 0.0 ==> h > 0.0
  {
    if t + hNew > tEnd then tEnd - t else hNew
  }

  /** The loop variables of a run between two trials. */
  datatype RunState = RunState(t: real, x: Vec, hNew: real, tOut: real, table: Table)

  /** An accepted step: its start time and state, its length, its stages,
      and the rows `[first, last)` it wrote to the table. */
  datatype StepRecord = StepRecord(t: real, x: Vec, h: real, K: seq<Vec>, first: nat, last: nat)

  /** The result table of a run in progress: full-width rows, row `0` the
      initial sample, row `k` stamped with grid time `k`, the reserved rows
      past the count still zero, and `max(hint, count)` rows in all. */
  predicate TableInv(p: Problem, tb: Table)
    requires p.step > 0.0
  {
    Valid(tb) && tb.cols == |p.x0| + 1 && tb.count >= 1
    && |tb.rows| == MaxInt(RowsHint(p.t0, p.t1, p.step), tb.count)
    && ZeroFrom(tb, tb.count)
    && RowHolds(tb, 0, p.x0, p.t0)
    && forall k :: 0 <= k < tb.count ==> tb.rows[k][0] == GridTime(p, k)
  }

  /** The state of a run between two trials: the time within the span, a
      positive proposed length, the output cursor at the grid time after the
      last row written and not behind the time, and every row after the
      first stamped before the time. */
  predicate Inv(p: Problem, cfg: Settings, s: RunState)
  {
    ValidSetup(p, cfg)
    && |s.x| == |p.x0| && s.hNew > 0.0
    && p.t0 <= s.t && (s.t <= p.t1 || s.t == p.t0)
    && TableInv(p, s.table)
    && s.tOut == GridTime(p, s.table.count) && s.t <= s.tOut
    && (forall k :: 1 <= k < s.table.count ==> GridTime(p, k) < s.t)
    && (forall k :: 1 <= k < s.table.count ==> GridTime(p, k) < p.t1)
  }

  /** The mean square error estimate of the trial of length `h` from
      `(x, t)`. */
  function TrialError(cfg: Settings, f: Rhs, x: Vec, t: real, h: real): real
    requires |x| > 0 && cfg.eMax > 0.0 && Dimensioned(f, |x|)
  {
    var K := AllStages(f, x, t, h);
    MeanSquare(x, StepEnd4(x, h, K), StepEnd5(x, h, K), Roundoff(cfg.u, cfg.eMax))
  }

  /** An accepted step of a run: a positive length that stays within the
      span, the stages of that trial, an error estimate within tolerance. */
  ghost predicate Sound(p: Problem, cfg: Settings, f: Rhs, rec: StepRecord)
  {
    |rec.x| == |p.x0| > 0 && cfg.eMax > 0.0 && Dimensioned(f, |rec.x|)
    && rec.h > 0.0 && rec.t + rec.h <= p.t1 && rec.first <= rec.last
    && rec.K == AllStages(f, rec.x, rec.t, rec.h)
    && Accepts(TrialError(cfg, f, rec.x, rec.t, rec.h), cfg.eMax)
  }

  /** The dense-output sample at time `tau` of the step from `(x, t)` of
      length `h`: the interpolant at `theta = (tau - t) / h`. */
  function DenseSample(x: Vec, t: real, h: real, K: seq<Vec>, tau: real): (r: Vec)
    requires h > 0.0 && |K| == Stages && AllOfLength(K, |x|)
    ensures |r| == |x|
  {
    Interpolate(x, h, K, (tau - t) / h)
  }

  /** Rows `[first, last)` of the table are the samples of the step's
      interpolant at grid times inside the step. */
  predicate Emitted(p: Problem, rec: StepRecord, tb: Table)
    requires Shaped(rec)
  {
    forall k :: rec.first <= k < rec.last ==>
      k < |tb.rows|
      && rec.t <= GridTime(p, k) < rec.t + rec.h
      && tb.rows[k] == [GridTime(p, k)] + DenseSample(rec.x, rec.t, rec.h, rec.K, GridTime(p, k))
  }

  /** One row of `Emitted`, picked out. */
  lemma EmittedAt(p: Problem, rec: StepRecord, tb: Table, k: int)
    requires Shaped(rec) && Emitted(p, rec, tb) && rec.first <= k < rec.last
    ensures k < |tb.rows| && rec.t <= GridTime(p, k) < rec.t + rec.h
    ensures tb.rows[k] == [GridTime(p, k)] + DenseSample(rec.x, rec.t, rec.h, rec.K, GridTime(p, k))
  {
  }

  /** The initial state of a run: the previous results cleared, the table
      prepared, the initial sample written, the cursor one spacing on, and
      the output spacing as the first proposed length. */
  function Start(p: Problem, cfg: Settings, previous: Table): (s: RunState)
    requires ValidSetup(p, cfg)
    ensures s.t == p.t0 && s.x == p.x0 && s.hNew == p.step && s.table.count == 1
    ensures Inv(p, cfg, s)
  {
    var n := |p.x0|;
    var prepared := Prepare(Clear(previous), p.t0, p.t1, p.step, n);
    var table := AddResult(prepared, n, p.x0, p.t0);
    assert ZeroFrom(table, 1) by {
      forall i, j | 1 <= i < |table.rows| && 0 <= j < |table.rows[i]|
        ensures table.rows[i][j] == 0.0
      {
      }
    }
    RunState(p.t0, p.x0, p.step, p.t0 + p.step, table)
  }

  /** The number of grid points from `tOut` on, spaced `step` apart, that lie
      below `end`. */
  function GridPointsBelow(tOut: real, end: real, step: real): nat
    requires step > 0.0
  {
    if tOut < end then ((end - tOut) / step).Floor as nat + 1 else 0
  }

  /** Advancing the cursor by one spacing leaves one grid point fewer. */
  lemma GridPointsDecrease(tOut: real, end: real, step: real)
    requires step > 0.0 && tOut < end
    ensures GridPointsBelow(tOut + step, end, step) < GridPointsBelow(tOut, end, step)
  {
    var r := (end - tOut) / step;
    assert r * step == end - tOut;
    assert (r - 1.0) * step == end - (tOut + step);
    DivUnique(end - (tOut + step), step, r - 1.0);
  }

  /** The quotient is the one number that gives back the dividend. */
  lemma DivUnique(a: real, s: real, q: real)
    requires s > 0.0 && q * s == a
    ensures a / s == q
  {
  }
  /** Writing the sample at the cursor keeps the table invariant: the new
      row is stamped with its grid time, and the rows before it stay. */
  lemma AddSample(p: Problem, table: Table, xOut: Vec, tOut: real)
    requires p.step > 0.0 && TableInv(p, table) && |xOut| == |p.x0|
    requires tOut == GridTime(p, table.count)
    ensures TableInv(p, AddResult(table, |p.x0|, xOut, tOut))
    ensures AddResult(table, |p.x0|, xOut, tOut).count == table.count + 1
    ensures AddResult(table, |p.x0|, xOut, tOut).rows[table.count] == [tOut] + xOut
    ensures forall k :: 0 <= k < table.count ==> AddResult(table, |p.x0|, xOut, tOut).rows[k] == table.rows[k]
  {
    var n := |p.x0|;
    var res := AddResult(table, n, xOut, tOut);
    forall k | 0 <= k < table.count
      ensures res.rows[k] == table.rows[k]
    {
      assert |res.rows[k]| == |table.rows[k]| == n + 1;
      forall j | 0 <= j < n + 1
        ensures res.rows[k][j] == table.rows[k][j]
      {
        assert res.rows[k][j] == EntryOrZero(table.rows, k, j);
      }
    }
    forall i, j | table.count + 1 <= i < |res.rows| && 0 <= j < |res.rows[i]|
      ensures res.rows[i][j] == 0.0
    {
      assert res.rows[i][j] == EntryOrZero(table.rows, i, j);
    }
  }

  /** `tb` still holds the first `table0.count` rows of `table0`. */
  predicate Kept(table0: Table, tb: Table)
  {
    table0.count <= tb.count && table0.count <= |table0.rows| && table0.count <= |tb.rows|
    && forall k :: 0 <= k < table0.count ==> tb.rows[k] == table0.rows[k]
  }

  /** Grid times `1 .. count - 1` lie before `bound`. */
  predicate StampedBefore(p: Problem, count: nat, bound: real)
  {
    forall k :: 1 <= k < count ==> GridTime(p, k) < bound
  }

  /** Appending a row keeps the rows a table already kept. */
  lemma KeptExtend(table0: Table, table: Table, next: Table)
    requires Kept(table0, table) && table.count <= |table.rows| && next.count == table.count + 1 && table.count < |next.rows|
    requires forall k :: 0 <= k < table.count ==> next.rows[k] == table.rows[k]
    ensures Kept(table0, next)
  {
    forall k | 0 <= k < table0.count
      ensures next.rows[k] == table0.rows[k]
    {
      assert table.rows[k] == table0.rows[k];
    }
  }

  /** One more grid time before the bound extends the stamped range. */
  lemma StampedExtend(p: Problem, count: nat, bound: real)
    requires StampedBefore(p, count, bound) && GridTime(p, count) < bound
    ensures StampedBefore(p, count + 1, bound)
  {
  }

  /** The loop invariant of the emission loop of the step from `(x, t)` of
      length `h`, started on table `table0`. */
  predicate EmitInv(p: Problem, x: Vec, t: real, h: real, K: seq<Vec>, table0: Table, tOut: real, table: Table)
    requires p.step > 0.0 && h > 0.0 && |K| == Stages && AllOfLength(K, |x|)
  {
    TableInv(p, table)
    && tOut == GridTime(p, table.count) && t <= tOut
    && Kept(table0, table)
    && StampedBefore(p, table.count, t + h)
    && Emitted(p, StepRecord(t, x, h, K, table0.count, table.count), table)
  }

  /** Writing the sample at the next grid time extends the rows a step has
      emitted by one. */
  lemma EmittedExtend(p: Problem, rec: StepRecord, table: Table, next: Table, tOut: real)
    requires rec.h > 0.0 && |rec.K| == Stages && AllOfLength(rec.K, |rec.x|)
    requires Emitted(p, rec, table) && rec.last <= |table.rows| && rec.last < |next.rows|
    requires forall k :: 0 <= k < rec.last ==> next.rows[k] == table.rows[k]
    requires tOut == GridTime(p, rec.last) && rec.t <= tOut < rec.t + rec.h
    requires next.rows[rec.last] == [tOut] + DenseSample(rec.x, rec.t, rec.h, rec.K, tOut)
    ensures Emitted(p, rec.(last := rec.last + 1), next)
  {
    forall k | rec.first <= k < rec.last + 1
      ensures k < |next.rows|
      ensures rec.t <= GridTime(p, k) < rec.t + rec.h
      ensures next.rows[k] == [GridTime(p, k)] + DenseSample(rec.x, rec.t, rec.h, rec.K, GridTime(p, k))
    {
      if k == rec.last {
        assert GridTime(p, k) == tOut;
      }
    }
  }

  /** One pass of the emission loop keeps its invariant: `next` is the table
      with the sample `xOut` at the cursor appended, as `AddSample` describes
      it. */
  lemma EmitStep(p: Problem, x: Vec, t: real, h: real, K: seq<Vec>, table0: Table, tOut: real, table: Table, xOut: Vec, next: Table)
    requires p.step > 0.0 && |p.x0| > 0 && |x| == |p.x0| && h > 0.0
    requires |K| == Stages && AllOfLength(K, |x|)
    requires EmitInv(p, x, t, h, K, table0, tOut, table) && tOut < t + h
    requires xOut == DenseSample(x, t, h, K, tOut)
    requires TableInv(p, next) && next.count == table.count + 1 && next.rows[table.count] == [tOut] + xOut
    requires forall k :: 0 <= k < table.count ==> next.rows[k] == table.rows[k]
    ensures EmitInv(p, x, t, h, K, table0, tOut + p.step, next)
  {
    GridNext(p, table.count);
    KeptExtend(table0, table, next);
    StampedExtend(p, table.count, t + h);
    EmittedExtend(p, StepRecord(t, x, h, K, table0.count, table.count), table, next, tOut);
  }

  /** The emission loop of an accepted step from `(x, t)` of length `h`:
      while the cursor is inside the step (and not past the end time), write
      the interpolant's sample at the cursor and advance the cursor by one
      spacing. */
  method EmitSamples(p: Problem, x: Vec, t: real, h: real, K: seq<Vec>, tOut0: real, table0: Table)
    returns (tOut: real, table: Table)
    requires p.step > 0.0 && |p.x0| > 0 && |x| == |p.x0| && h > 0.0 && t + h <= p.t1
    requires |K| == Stages && AllOfLength(K, |x|)
    requires TableInv(p, table0) && tOut0 == GridTime(p, table0.count) && t <= tOut0
    requires forall k :: 1 <= k < table0.count ==> GridTime(p, k) < t
    ensures TableInv(p, table) && tOut == GridTime(p, table.count) && t + h <= tOut
    ensures Kept(table0, table) && StampedBefore(p, table.count, t + h)
    ensures Emitted(p, StepRecord(t, x, h, K, table0.count, table.count), table)
  {
    tOut := tOut0;
    table := table0;
    while tOut < t + h && tOut <= p.t1
      invariant EmitInv(p, x, t, h, K, table0, tOut, table)
      decreases GridPointsBelow(tOut, t + h, p.step)
    {
      var theta := (tOut - t) / h;
      var xOut := Interpolate(x, h, K, theta);
      assert xOut == DenseSample(x, t, h, K, tOut);
      GridPointsDecrease(tOut, t + h, p.step);
      var next := AddResult(table, |x|, xOut, tOut);
      AddSample(p, table, xOut, tOut);
      EmitStep(p, x, t, h, K, table0, tOut, table, xOut, next);
      table := next;
      tOut := tOut + p.step;
    }
  }

  /** One pass of the integrator's main loop from a time before the end: a
      trial of the clamped length, the error estimate, the next proposed
      length, and then either a rejection that changes nothing but the
      proposed length, or an acceptance that writes every grid time inside
      the step from the interpolant and commits the step. */
  method Iterate(p: Problem, cfg: Settings, f: Rhs, ratioOf: real -> real, rule: CommitRule, s: RunState)
    returns (next: RunState, accepted: bool, rec: StepRecord)
    requires Inv(p, cfg, s) && s.t < p.t1 && Dimensioned(f, |p.x0|) && RootLike(ratioOf)
    ensures Inv(p, cfg, next)
    ensures rec.t == s.t && rec.x == s.x && rec.h == TrialLength(s.t, p.t1, s.hNew) && rec.h > 0.0
    ensures rec.K == AllStages(f, s.x, s.t, rec.h)
    ensures accepted == Accepts(TrialError(cfg, f, s.x, s.t, rec.h), cfg.eMax)
    ensures next.hNew == NextStep(rec.h, Ratio(TrialError(cfg, f, s.x, s.t, rec.h), cfg.eMax, ratioOf))
    ensures !accepted ==> next == s.(hNew := next.hNew) && next.hNew < rec.h
    ensures accepted ==> Sound(p, cfg, f, rec) && next.t == s.t + rec.h && next.x == Committed(rule, s.x, rec.h, rec.K)
    ensures accepted ==> rec.first == s.table.count && rec.last == next.table.count && Emitted(p, rec, next.table)
    ensures Shaped(rec)
    ensures s.table.count <= next.table.count && |s.table.rows| <= |next.table.rows|
    ensures forall k :: 0 <= k < s.table.count ==> next.table.rows[k] == s.table.rows[k]
  {
    var n := |s.x|;
    var h := TrialLength(s.t, p.t1, s.hNew);
    var K := AllStages(f, s.x, s.t, h);
    var x4 := StepEnd4(s.x, h, K);
    var x5 := StepEnd5(s.x, h, K);
    var roundoff := Roundoff(cfg.u, cfg.eMax);
    var sumSquares := EstimateError(s.x, x4, x5, roundoff);
    var meanSquare := sumSquares / (n as real);
    assert meanSquare == TrialError(cfg, f, s.x, s.t, h);
    var ratio := Ratio(meanSquare, cfg.eMax, ratioOf);
    var hNew := NextStep(h, ratio);
    accepted := Accepts(meanSquare, cfg.eMax);
    if !accepted {
      RejectedStepShrinks(h, meanSquare, cfg.eMax, ratioOf);
      next := s.(hNew := hNew);
      rec := StepRecord(s.t, s.x, h, K, s.table.count, s.table.count);
      return;
    }
    var tOut, table := EmitSamples(p, s.x, s.t, h, K, s.tOut, s.table);
    rec := StepRecord(s.t, s.x, h, K, s.table.count, table.count);
    next := RunState(s.t + h, Committed(rule, s.x, h, K), hNew, tOut, table);
  }
  /** Every step of the trace is a sound accepted step. */
  ghost predicate AllSound(p: Problem, cfg: Settings, f: Rhs, trace: seq<StepRecord>)
  {
    forall i :: 0 <= i < |trace| ==> Sound(p, cfg, f, trace[i])
  }

  /** The accepted steps of a run so far, in order, each with the shape of
      a step of the run: the first starting at `(t0, x0)` and each later one
      where the one before it ended, at the state the commit rule chose;
      their rows tiling the table after the initial sample, each row the
      sample of its step's interpolant; and the run's time and state where
      the last one ended. */
  predicate Chained(p: Problem, rule: CommitRule, trace: seq<StepRecord>, t: real, x: Vec, table: Table)
  {
    (forall i :: 0 <= i < |trace| ==>
      Shaped(trace[i]) && trace[i].first <= trace[i].last <= table.count && Emitted(p, trace[i], table))
    && (forall i :: 0 <= i < |trace| - 1 ==>
      trace[i + 1].t == trace[i].t + trace[i].h
      && trace[i + 1].x == Committed(rule, trace[i].x, trace[i].h, trace[i].K)
      && trace[i + 1].first == trace[i].last)
    && (if |trace| == 0 then t == p.t0 && x == p.x0 && table.count == 1
        else
          var last := trace[|trace| - 1];
          trace[0].t == p.t0 && trace[0].x == p.x0 && trace[0].first == 1
          && last.last == table.count
          && t == last.t + last.h && x == Committed(rule, last.x, last.h, last.K))
  }

  /** The shape of an accepted step: a positive length and seven stages of
      the state's dimension. */
  predicate Shaped(rec: StepRecord)
  {
    rec.h > 0.0 && |rec.K| == Stages && AllOfLength(rec.K, |rec.x|)
  }

  /** The history of a run: the accepted steps are sound and chained. */
  ghost predicate History(p: Problem, cfg: Settings, f: Rhs, rule: CommitRule, trace: seq<StepRecord>, t: real, x: Vec, table: Table)
  {
    AllSound(p, cfg, f, trace) && Chained(p, rule, trace, t, x, table)
  }

  /** The rows a step emitted stay as they are while later rows are
      written. */
  lemma EmittedStable(p: Problem, rec: StepRecord, table: Table, next: Table)
    requires Shaped(rec)
    requires Emitted(p, rec, table) && rec.last <= table.count <= |table.rows| <= |next.rows|
    requires forall k :: 0 <= k < table.count ==> next.rows[k] == table.rows[k]
    ensures Emitted(p, rec, next)
  {
    forall k | rec.first <= k < rec.last
      ensures next.rows[k] == table.rows[k]
    {
    }
  }

  lemma AllSoundExtend(p: Problem, cfg: Settings, f: Rhs, trace: seq<StepRecord>, rec: StepRecord)
    requires AllSound(p, cfg, f, trace) && Sound(p, cfg, f, rec)
    ensures AllSound(p, cfg, f, trace + [rec])
  {
    var trace' := trace + [rec];
    forall i | 0 <= i < |trace'|
      ensures Sound(p, cfg, f, trace'[i])
    {
      if i < |trace| {
        assert trace'[i] == trace[i];
      }
    }
  }

  /** Appending an accepted step to the chain of the run before it gives
      the chain of the run after it. */
  lemma ChainedExtend(p: Problem, rule: CommitRule, trace: seq<StepRecord>, s: RunState, next: RunState, rec: StepRecord)
    requires Chained(p, rule, trace, s.t, s.x, s.table)
    requires Shaped(rec) && rec.t == s.t && rec.x == s.x
    requires rec.first == s.table.count && rec.last == next.table.count && Emitted(p, rec, next.table)
    requires s.table.count <= next.table.count
    requires s.table.count <= |s.table.rows| <= |next.table.rows|
    requires forall k :: 0 <= k < s.table.count ==> next.table.rows[k] == s.table.rows[k]
    requires next.t == s.t + rec.h && next.x == Committed(rule, s.x, rec.h, rec.K)
    ensures Chained(p, rule, trace + [rec], next.t, next.x, next.table)
  {
    var trace' := trace + [rec];
    forall i | 0 <= i < |trace'|
      ensures Shaped(trace'[i]) && trace'[i].first <= trace'[i].last <= next.table.count
      ensures Emitted(p, trace'[i], next.table)
    {
      if i < |trace| {
        assert trace'[i] == trace[i];
        EmittedStable(p, trace[i], s.table, next.table);
      }
    }
    forall i | 0 <= i < |trace'| - 1
      ensures trace'[i + 1].t == trace'[i].t + trace'[i].h
      ensures trace'[i + 1].x == Committed(rule, trace'[i].x, trace'[i].h, trace'[i].K)
      ensures trace'[i + 1].first == trace'[i].last
    {
      assert trace'[i] == trace[i];
      if i + 1 < |trace| {
        assert trace'[i + 1] == trace[i + 1];
      }
    }
  }

  /** Appending an accepted step to the history of the run before it gives
      the history of the run after it. */
  lemma HistoryExtend(p: Problem, cfg: Settings, f: Rhs, rule: CommitRule, trace: seq<StepRecord>, s: RunState, next: RunState, rec: StepRecord)
    requires History(p, cfg, f, rule, trace, s.t, s.x, s.table) && Sound(p, cfg, f, rec)
    requires Shaped(rec) && rec.t == s.t && rec.x == s.x
    requires s.table.count <= next.table.count && s.table.count <= |s.table.rows| <= |next.table.rows|
    requires rec.first == s.table.count && rec.last == next.table.count && Emitted(p, rec, next.table)
    requires forall k :: 0 <= k < s.table.count ==> next.table.rows[k] == s.table.rows[k]
    requires next.t == s.t + rec.h && next.x == Committed(rule, s.x, rec.h, rec.K)
    ensures History(p, cfg, f, rule, trace + [rec], next.t, next.x, next.table)
  {
    AllSoundExtend(p, cfg, f, trace, rec);
    ChainedExtend(p, rule, trace, s, next, rec);
  }

  /** One pass of the main loop with its history: the step, if accepted, is
      appended to the trace. */
  method Advance(p: Problem, cfg: Settings, f: Rhs, ratioOf: real -> real, rule: CommitRule,
                 s: RunState, trace: seq<StepRecord>)
    returns (next: RunState, trace': seq<StepRecord>)
    requires Inv(p, cfg, s) && s.t < p.t1 && Dimensioned(f, |p.x0|) && RootLike(ratioOf)
    requires History(p, cfg, f, rule, trace, s.t, s.x, s.table)
    ensures trace' == trace || (|trace'| == |trace| + 1 && trace'[..|trace|] == trace)
    ensures Inv(p, cfg, next)
    ensures History(p, cfg, f, rule, trace', next.t, next.x, next.table)
  {
    var accepted, rec;
    next, accepted, rec := Iterate(p, cfg, f, ratioOf, rule, s);
    trace' := trace;
    if accepted {
      HistoryExtend(p, cfg, f, rule, trace, s, next, rec);
      trace' := trace + [rec];
      assert trace'[..|trace|] == trace;
    }
  }

  /** Before any step is accepted, the history of a run at the initial
      sample is the empty trace. */
  lemma EmptyHistory(p: Problem, cfg: Settings, f: Rhs, rule: CommitRule, t: real, x: Vec, table: Table)
    requires t == p.t0 && x == p.x0 && table.count == 1
    ensures History(p, cfg, f, rule, [], t, x, table)
  {
  }

  /** What the run's invariant says once the loop is over. */
  lemma RunEnd(p: Problem, cfg: Settings, s: RunState)
    requires Inv(p, cfg, s)
    ensures forall k :: 1 <= k < s.table.count ==> GridTime(p, k) < s.t && GridTime(p, k) < p.t1
    ensures p.t1 <= s.t ==> s.t == (if p.t0 < p.t1 then p.t1 else p.t0) && p.t1 <= GridTime(p, s.table.count)
  {
  }

  /** `Run`: the integrator from clearing and preparing the result table to
      the end of the span, trying at most `fuel` steps. The table holds the
      initial sample and one row per output grid time reached, each one the
      interpolant of the accepted step it falls in; `finished` says the end
      time was reached, and then every grid time before it has its row. */
  method Run(p: Problem, cfg: Settings, f: Rhs, ratioOf: real -> real, rule: CommitRule, previous: Table, fuel: nat)
    returns (table: Table, t: real, x: Vec, trace: seq<StepRecord>, finished: bool)
    requires ValidSetup(p, cfg) && Dimensioned(f, |p.x0|) && RootLike(ratioOf)
    ensures TableInv(p, table)
    ensures p.t0 <= t && (t <= p.t1 || t == p.t0) && |x| == |p.x0|
    ensures forall k :: 1 <= k < table.count ==> GridTime(p, k) < t && GridTime(p, k) < p.t1
    ensures History(p, cfg, f, rule, trace, t, x, table)
    ensures finished <==> p.t1 <= t
    ensures finished ==> t == (if p.t0 < p.t1 then p.t1 else p.t0) && p.t1 <= GridTime(p, table.count)
  {
    var s := Start(p, cfg, previous);
    trace := [];
    EmptyHistory(p, cfg, f, rule, s.t, s.x, s.table);
    var trials := 0;
    while s.t < p.t1 && trials < fuel
      invariant Inv(p, cfg, s)
      invariant History(p, cfg, f, rule, trace, s.t, s.x, s.table)
      decreases fuel - trials
    {
      s, trace := Advance(p, cfg, f, ratioOf, rule, s, trace);
      trials := trials + 1;
    }
    RunEnd(p, cfg, s);
    table, t, x := s.table, s.t, s.x;
    finished := p.t1 <= s.t;
  }
}
