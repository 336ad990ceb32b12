/** The step-size controller: the next trial length from the length just
    tried and the error ratio `(eps_step / e_max)^(1/5)`. The root itself is
    a parameter of the model: a function `ratioOf` from
    `q = eps_step^2 / e_max^2` to `q^(1/10)`, of which only the shape
    `RootLike` is assumed. */
module StepControl {
  import opened ErrorEstimate

  const MinScale: real := 0.1
  const MaxScale: real := 5.0
  const Safety: real := 0.9

  /** `std::min`: the first argument unless the second is smaller. */
  function Min(a: real, b: real): (r: real)
    ensures r <= a && r <= b && (r == a || r == b)
  {
    if b < a then b else a
  }

  /** The divisor `max(0.1, min(5, ratio / 0.9))`, clamped to `[0.1, 5]`. */
  function ScaleFactor(ratio: real): (s: real)
    ensures MinScale <= s <= MaxScale
    ensures MinScale < ratio / Safety < MaxScale ==> s == ratio / Safety
    ensures ratio / Safety <= MinScale ==> s == MinScale
    ensures ratio / Safety >= MaxScale ==> s == MaxScale
  {
    Max(MinScale, Min(MaxScale, ratio / Safety))
  }

  /** Dividing by a larger positive number gives a smaller quotient. */
  lemma DivAntitone(a: real, s1: real, s2: real)
    requires a >= 0.0 && 0.0 < s1 <= s2
    ensures a / s2 <= a / s1
    ensures a > 0.0 && s1 < s2 ==> a / s2 < a / s1
    ensures a > 0.0 ==> a / s2 > 0.0
  {
    var r1 := a / s1;
    var r2 := a / s2;
    assert r1 * s1 == a && r2 * s2 == a;
    assert r2 >= 0.0;
    assert r2 * (s2 - s1) >= 0.0;
    if a > 0.0 {
      assert r2 > 0.0;
      if s1 < s2 {
        assert r2 * (s2 - s1) > 0.0;
      }
    }
  }

  /** The next trial length `h_new = h_done / ScaleFactor(ratio)`: between a
      fifth and ten times the length just tried, shorter after a ratio above
      the safety factor and longer after one below it. */
  function NextStep(hDone: real, ratio: real): (hNew: real)
    ensures hDone >= 0.0 ==> hDone / 5.0 <= hNew <= 10.0 * hDone
    ensures hDone > 0.0 ==> hNew > 0.0
    ensures ratio <= MinScale * Safety ==> hNew == 10.0 * hDone
    ensures ratio >= MaxScale * Safety ==> hNew == hDone / 5.0
    ensures hDone > 0.0 && ratio > Safety ==> hNew < hDone
    ensures hDone > 0.0 && ratio < Safety ==> hNew > hDone
  {
    var s := ScaleFactor(ratio);
    if hDone >= 0.0 then
      DivAntitone(hDone, s, MaxScale);
      DivAntitone(hDone, MinScale, s);
      if ratio > Safety then
        DivAntitone(hDone, 1.0, s);
        hDone / s
      else if ratio < Safety then
        DivAntitone(hDone, s, 1.0);
        hDone / s
      else
        hDone / s
    else
      hDone / s
  }

  /** A larger ratio never gives a longer next step. */
  lemma NextStepAntitone(hDone: real, ratio1: real, ratio2: real)
    requires hDone >= 0.0 && ratio1 <= ratio2
    ensures NextStep(hDone, ratio2) <= NextStep(hDone, ratio1)
  {
    DivAntitone(hDone, ScaleFactor(ratio1), ScaleFactor(ratio2));
  }

  /** The shape assumed of the root: it is never negative, and it exceeds one
      exactly when its argument does (the tenth root has both properties). */
  ghost predicate RootLike(ratioOf: real -> real)
  {
    forall q :: 0.0 <= ratioOf(q) && (1.0 < q <==> 1.0 < ratioOf(q))
  }

  /** The error ratio: zero when the error measure is zero, the root of
      `eps_step^2 / e_max^2` otherwise. */
  function Ratio(meanSquare: real, eMax: real, ratioOf: real -> real): (ratio: real)
    requires eMax > 0.0 && RootLike(ratioOf)
    ensures ratio >= 0.0
    ensures meanSquare <= 0.0 ==> ratio == 0.0
    ensures meanSquare > 0.0 ==> (ratio > 1.0 <==> !Accepts(meanSquare, eMax))
  {
    if meanSquare <= 0.0 then 0.0
    else
      SquareSign(eMax);
      DivAboveOne(meanSquare, Square(eMax));
      ratioOf(meanSquare / Square(eMax))
  }

  /** A rejected step is retried with a strictly shorter length, no shorter
      than a fifth of it. */
  lemma RejectedStepShrinks(hDone: real, meanSquare: real, eMax: real, ratioOf: real -> real)
    requires hDone > 0.0 && eMax > 0.0 && RootLike(ratioOf)
    requires !Accepts(meanSquare, eMax)
    ensures hDone / 5.0 <= NextStep(hDone, Ratio(meanSquare, eMax, ratioOf)) < hDone
  {
    SquareSign(eMax);
  }

  /** A step with no error at all is followed by a trial ten times as long. */
  lemma ExactStepGrows(hDone: real, eMax: real, ratioOf: real -> real)
    requires eMax > 0.0 && RootLike(ratioOf)
    ensures NextStep(hDone, Ratio(0.0, eMax, ratioOf)) == 10.0 * hDone
  {
  }
}
