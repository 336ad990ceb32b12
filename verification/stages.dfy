/** The stage engine: the seven right-hand-side evaluations of one trial step
    and the two step-end states the weight vectors `B4` and `B5` make of them. */
module StageEngine {
  import opened Vectors
  import opened Tableau
  import opened DenseOutput

  /** A right-hand side `(state, time) -> derivative` (the model's `getRight`). */
  type Rhs = (Vec, real) -> Vec

  /** `f` returns a derivative of dimension `n` for every state of dimension `n`. */
  ghost predicate Dimensioned(f: Rhs, n: nat)
  {
    forall y: Vec, tau: real :: |y| == n ==> |f(y, tau)| == n
  }

  /** `f` is the constant field `v` on states of the dimension of `v`. */
  ghost predicate ConstantField(f: Rhs, v: Vec)
  {
    forall y: Vec, tau: real :: |y| == |v| ==> f(y, tau) == v
  }

  /** The state stage `i` is evaluated at, given the stages `K[0..i-1]`:
      `x` itself for the first stage, `x + h * sum_j A[i][j] * K[j]` after it. */
  function StageState(x: Vec, h: real, K: seq<Vec>, i: nat): (y: Vec)
    requires i < Stages && |K| == i && AllOfLength(K, |x|)
    ensures |y| == |x|
  {
    if i == 0 then x else Combine(x, h, A[i][..i], K)
  }

  /** The first `m` stages of a trial step of length `h` from `(x, t)`. */
  function StagesUpTo(f: Rhs, x: Vec, t: real, h: real, m: nat): (K: seq<Vec>)
    requires m <= Stages && Dimensioned(f, |x|)
    ensures |K| == m && AllOfLength(K, |x|)
    decreases m
  {
    if m == 0 then []
    else
      var K := StagesUpTo(f, x, t, h, m - 1);
      K + [f(StageState(x, h, K, m - 1), t + C[m - 1] * h)]
  }

  /** All seven stages `K[0..6]` of a trial step. */
  function AllStages(f: Rhs, x: Vec, t: real, h: real): (K: seq<Vec>)
    requires Dimensioned(f, |x|)
    ensures |K| == Stages && AllOfLength(K, |x|)
  {
    StagesUpTo(f, x, t, h, Stages)
  }

  /** All seven stages have the same value. */
  predicate Uniform(K: seq<Vec>)
    requires |K| == Stages
  {
    forall j :: 0 <= j < Stages ==> K[j] == K[0]
  }

  /** Both weight vectors are consistent: when all seven stages agree, a
      step end moves the start by `h` times their common value. */
  lemma UniformStages(x: Vec, h: real, b: seq<real>, K: seq<Vec>)
    requires |b| == |K| == Stages && AllOfLength(K, |x|) && Sum(b) == 1.0
    ensures Uniform(K) ==> Combine(x, h, b, K) == Add(x, Scale(h, K[0]))
  {
    if Uniform(K) {
      CombineConstant(x, h, b, K, K[0], 1.0);
      assert h * 1.0 == h;
    }
  }

  /** The step end the integrator calls fourth order (`x4`). When all stages
      agree it is the exact move `x + h * K[0]`. */
  function StepEnd4(x: Vec, h: real, K: seq<Vec>): (r: Vec)
    requires |K| == Stages && AllOfLength(K, |x|)
    ensures |r| == |x|
    ensures Uniform(K) ==> r == Add(x, Scale(h, K[0]))
  {
    WeightSums();
    UniformStages(x, h, B4, K);
    Combine(x, h, B4, K)
  }

  /** The step end the integrator calls fifth order (`x5`). When all stages
      agree it is the exact move `x + h * K[0]`. */
  function StepEnd5(x: Vec, h: real, K: seq<Vec>): (r: Vec)
    requires |K| == Stages && AllOfLength(K, |x|)
    ensures |r| == |x|
    ensures Uniform(K) ==> r == Add(x, Scale(h, K[0]))
  {
    WeightSums();
    UniformStages(x, h, B5, K);
    Combine(x, h, B5, K)
  }

  /** Which step end an accepted step commits: the integrator as written
      keeps `x5` (the `B5` weights); the corrected integrator keeps `x4`,
      whose weights meet every quadrature condition of order five. */
  datatype CommitRule = AsWritten | Corrected

  /** The state an accepted step hands to the next one: the step end the
      rule chooses. Either rule commits the exact move when all stages agree;
      the corrected rule commits the point where the dense output ends. */
  function Committed(rule: CommitRule, x: Vec, h: real, K: seq<Vec>): (r: Vec)
    requires |K| == Stages && AllOfLength(K, |x|)
    ensures |r| == |x|
    ensures r == (if rule == AsWritten then StepEnd5(x, h, K) else StepEnd4(x, h, K))
    ensures Uniform(K) ==> r == Add(x, Scale(h, K[0]))
    ensures rule == Corrected ==> r == Interpolate(x, h, K, 1.0)
  {
    match rule
    case AsWritten => StepEnd5(x, h, K)
    case Corrected => StepEnd4(x, h, K)
  }

  /** A prefix of `a` is a prefix of every sequence that extends `a`. */
  lemma PrefixOfLonger(a: seq<Vec>, b: seq<Vec>, i: nat)
    requires i <= |a| <= |b| && b[..|a|] == a
    ensures b[..i] == a[..i]
  {
    assert b[..i] == b[..|a|][..i];
  }

  /** One more stage appends to the stages before it. */
  lemma StagesExtend(f: Rhs, x: Vec, t: real, h: real, m: nat)
    requires 0 < m <= Stages && Dimensioned(f, |x|)
    ensures StagesUpTo(f, x, t, h, m)[..m - 1] == StagesUpTo(f, x, t, h, m - 1)
  {
  }

  /** Computing more stages leaves the earlier ones as they were. */
  lemma {:induction false} StagesPrefix(f: Rhs, x: Vec, t: real, h: real, m: nat, i: nat)
    requires i <= m <= Stages && Dimensioned(f, |x|)
    ensures StagesUpTo(f, x, t, h, m)[..i] == StagesUpTo(f, x, t, h, i)
    decreases m
  {
    if i < m {
      StagesPrefix(f, x, t, h, m - 1, i);
      StagesExtend(f, x, t, h, m);
      PrefixOfLonger(StagesUpTo(f, x, t, h, m - 1), StagesUpTo(f, x, t, h, m), i);
    }
  }

  /** Stage `i` is the right-hand side at the stage state built from the
      stages before it, at time `t + C[i] * h`. */
  lemma StageAt(f: Rhs, x: Vec, t: real, h: real, i: nat)
    requires i < Stages && Dimensioned(f, |x|)
    ensures AllStages(f, x, t, h)[i] == f(StageState(x, h, AllStages(f, x, t, h)[..i], i), t + C[i] * h)
  {
    var K := AllStages(f, x, t, h);
    StagesPrefix(f, x, t, h, Stages, i + 1);
    StagesPrefix(f, x, t, h, Stages, i);
    assert K[i] == K[..i + 1][i];
  }

  /** The state the seventh stage is evaluated at is the `x4` step end. */
  lemma LastStateIsStepEnd4(x: Vec, h: real, K: seq<Vec>)
    requires |K| == Stages && AllOfLength(K, |x|)
    ensures StageState(x, h, K[..Stages - 1], Stages - 1) == StepEnd4(x, h, K)
  {
    FirstSameAsLast();
    LinCombDropZeroLast(B4, K, |x|);
    assert A[Stages - 1][..Stages - 1] == B4[..Stages - 1];
  }

  /** First same as last: the seventh stage is the right-hand side at the
      `x4` step end and the step-end time, so an accepted step that kept
      `x4` could reuse it as the first stage of the next step. */
  lemma LastStageAtStepEnd(f: Rhs, x: Vec, t: real, h: real)
    requires Dimensioned(f, |x|)
    ensures AllStages(f, x, t, h)[Stages - 1] == f(StepEnd4(x, h, AllStages(f, x, t, h)), t + h)
  {
    StageAt(f, x, t, h, Stages - 1);
    LastStateIsStepEnd4(x, h, AllStages(f, x, t, h));
    assert t + C[Stages - 1] * h == t + h;
  }

  /** Under a constant field every stage is that constant. */
  lemma ConstantFieldStages(f: Rhs, v: Vec, x: Vec, t: real, h: real)
    requires |v| == |x| && ConstantField(f, v) && Dimensioned(f, |x|)
    ensures forall j :: 0 <= j < Stages ==> AllStages(f, x, t, h)[j] == v
  {
    forall j | 0 <= j < Stages
      ensures AllStages(f, x, t, h)[j] == v
    {
      StageAt(f, x, t, h, j);
    }
  }

  /** Under a constant field `v` both step ends are `x + h * v`, the exact
      solution. */
  lemma ConstantFieldStepEnds(f: Rhs, v: Vec, x: Vec, t: real, h: real)
    requires |v| == |x| && ConstantField(f, v) && Dimensioned(f, |x|)
    ensures StepEnd4(x, h, AllStages(f, x, t, h)) == Add(x, Scale(h, v))
    ensures StepEnd5(x, h, AllStages(f, x, t, h)) == Add(x, Scale(h, v))
  {
    var K := AllStages(f, x, t, h);
    ConstantFieldStages(f, v, x, t, h);
    WeightSums();
    CombineConstant(x, h, B4, K, v, 1.0);
    CombineConstant(x, h, B5, K, v, 1.0);
  }

  /** Under a constant field `v` the interpolant at fraction `theta` is
      `x + theta * h * v`, the exact solution. */
  lemma ConstantFieldInterpolant(f: Rhs, v: Vec, x: Vec, t: real, h: real, theta: real, d: real)
    requires |v| == |x| && ConstantField(f, v) && Dimensioned(f, |x|) && d == h * theta
    ensures Interpolate(x, h, AllStages(f, x, t, h), theta) == Add(x, Scale(d, v))
  {
    ConstantFieldStages(f, v, x, t, h);
    UniformInterpolant(x, h, AllStages(f, x, t, h), v, theta, d);
  }
}
