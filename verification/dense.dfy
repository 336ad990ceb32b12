/** Dense output of the Dormand-Prince pair: the weight polynomials `b_j(theta)`
    and the interpolant `x + h * sum_j b_j(theta) * K[j]` over the first six
    stages of an accepted step. */
module DenseOutput {
  import opened Vectors
  import opened Tableau

  function B1Theta(theta: real): real
  {
    theta * (1.0 + theta * (-1337.0 / 480.0 + theta * (1039.0 / 360.0 + theta * (-1163.0 / 1152.0))))
  }

  function B2Theta(theta: real): real
  {
    0.0
  }

  function B3Theta(theta: real): real
  {
    (100.0 * theta * theta * (1054.0 / 9275.0 + theta * (-4682.0 / 27825.0 + theta * (379.0 / 5565.0)))) / 3.0
  }

  function B4Theta(theta: real): real
  {
    (-5.0 * theta * theta * (27.0 / 40.0 + theta * (-9.0 / 5.0 + theta * (83.0 / 96.0)))) / 2.0
  }

  function B5Theta(theta: real): real
  {
    (18225.0 * theta * theta * (-3.0 / 250.0 + theta * (22.0 / 375.0 + theta * (-37.0 / 600.0)))) / 848.0
  }

  function B6Theta(theta: real): real
  {
    (-22.0 * theta * theta * (-3.0 / 10.0 + theta * (29.0 / 30.0 + theta * (-17.0 / 24.0)))) / 7.0
  }

  /** The six dense-output weights at `theta`, one per stage `K[0..5]`. */
  function DenseWeights(theta: real): (w: seq<real>)
    ensures |w| == Stages - 1
  {
    [B1Theta(theta), B2Theta(theta), B3Theta(theta), B4Theta(theta), B5Theta(theta), B6Theta(theta)]
  }

  /** The interpolated state at fraction `theta` of a step of length `h` that
      started at `x` with stages `K`; the seventh stage takes no part. */
  function Interpolate(x: Vec, h: real, K: seq<Vec>, theta: real): (r: Vec)
    requires |K| == Stages && AllOfLength(K, |x|)
    ensures |r| == |x|
    ensures theta == 0.0 ==> r == x
    ensures theta == 1.0 ==> r == Combine(x, h, B4, K)
  {
    DenseEnds(x, h, K);
    Combine(x, h, DenseWeights(theta), K[..Stages - 1])
  }

  /** Every weight polynomial vanishes at `theta = 0`. */
  lemma WeightsAtZero()
    ensures forall j :: 0 <= j < Stages - 1 ==> DenseWeights(0.0)[j] == 0.0
  {
  }

  /** At `theta = 1` the weights are the step-end weights `B4` (without its
      zero last entry). */
  lemma WeightsAtOne()
    ensures DenseWeights(1.0) == B4[..Stages - 1]
  {
  }

  /** The weights add up to `theta`, for every `theta`: the interpolant moves
      a constant derivative exactly. */
  lemma WeightSum(theta: real)
    ensures Sum(DenseWeights(theta)) == theta
  {
    Sum6(DenseWeights(theta));
    var t2 := theta * theta;
    var t3 := t2 * theta;
    var t4 := t3 * theta;
    assert B1Theta(theta) == theta - 1337.0 / 480.0 * t2 + 1039.0 / 360.0 * t3 - 1163.0 / 1152.0 * t4;
    assert B3Theta(theta) == 100.0 / 3.0 * (1054.0 / 9275.0 * t2 - 4682.0 / 27825.0 * t3 + 379.0 / 5565.0 * t4);
    assert B4Theta(theta) == -5.0 / 2.0 * (27.0 / 40.0 * t2 - 9.0 / 5.0 * t3 + 83.0 / 96.0 * t4);
    assert B5Theta(theta) == 18225.0 / 848.0 * (-3.0 / 250.0 * t2 + 22.0 / 375.0 * t3 - 37.0 / 600.0 * t4);
    assert B6Theta(theta) == -22.0 / 7.0 * (-3.0 / 10.0 * t2 + 29.0 / 30.0 * t3 - 17.0 / 24.0 * t4);
  }

  /** The dense combination starts at the step-start state and ends at the
      `B4` step end. */
  lemma DenseEnds(x: Vec, h: real, K: seq<Vec>)
    requires |K| == Stages && AllOfLength(K, |x|)
    ensures Combine(x, h, DenseWeights(0.0), K[..Stages - 1]) == x
    ensures Combine(x, h, DenseWeights(1.0), K[..Stages - 1]) == Combine(x, h, B4, K)
  {
    WeightsAtZero();
    CombineZeroWeights(x, h, DenseWeights(0.0), K[..Stages - 1]);
    WeightsAtOne();
    FirstSameAsLast();
    LinCombDropZeroLast(B4, K, |x|);
  }

  /** When every stage is `v`, the interpolant at `theta` moves the start by
      `d = h * theta` along `v`. */
  lemma UniformInterpolant(x: Vec, h: real, K: seq<Vec>, v: Vec, theta: real, d: real)
    requires |K| == Stages && |v| == |x| && d == h * theta
    requires forall j :: 0 <= j < Stages ==> K[j] == v
    ensures AllOfLength(K, |x|) && Interpolate(x, h, K, theta) == Add(x, Scale(d, v))
  {
    WeightSum(theta);
    CombineConstant(x, h, DenseWeights(theta), K[..Stages - 1], v, theta);
  }
}
