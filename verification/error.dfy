/** The error estimator: a scaled root-mean-square difference between the two
    step ends of a trial step. The square root is not modelled; the estimator
    yields the mean of the squared scaled differences, and acceptance compares
    that mean with the square of the tolerance. */
module ErrorEstimate {
  import opened Vectors

  /** The absolute floor of every scaling denominator (`1e-5`). */
  const DenominatorFloor: real := 0.00001

  function Abs(v: real): (r: real)
    ensures r >= 0.0 && (r == v || r == -v)
  {
    if v < 0.0 then -v else v
  }

  /** `std::max`: the first argument unless the second is larger. */
  function Max(a: real, b: real): (r: real)
    ensures r >= a && r >= b && (r == a || r == b)
  {
    if a < b then b else a
  }

  /** The roundoff term `2 * u / e_max` of the denominators. */
  function Roundoff(u: real, eMax: real): real
    requires eMax != 0.0
  {
    2.0 * u / eMax
  }

  /** Scaling denominator of one component: the largest of the floor, the
      magnitude of the `x4` component, the magnitude of the step-start
      component and the roundoff term. */
  function Denominator(x0i: real, x4i: real, roundoff: real): (d: real)
    ensures d >= DenominatorFloor && d >= Abs(x4i) && d >= Abs(x0i) && d >= roundoff
    ensures d == DenominatorFloor || d == Abs(x4i) || d == Abs(x0i) || d == roundoff
  {
    Max(DenominatorFloor, Max(Abs(x4i), Max(Abs(x0i), roundoff)))
  }

  /** Scaled difference of one component (the variant without the step
      length factor). */
  function Term(x0i: real, x4i: real, x5i: real, roundoff: real): real
  {
    (x4i - x5i) / Denominator(x0i, x4i, roundoff)
  }

  /** The square `e * e` of one scaled difference. */
  function Square(e: real): real
  {
    e * e
  }

  /** A square is never negative, and it is zero only for zero. */
  lemma SquareSign(e: real)
    ensures Square(e) >= 0.0
    ensures Square(e) == 0.0 <==> e == 0.0
  {
    if e > 0.0 {
      calc {
        Square(e);
        e * e;
      >
        0.0;
      }
    } else if e < 0.0 {
      calc {
        Square(e);
        e * e;
      >
        0.0;
      }
    }
  }

  /** Sum of the squared scaled differences of the first `m` components. */
  function SumSquares(x: Vec, x4: Vec, x5: Vec, roundoff: real, m: nat): real
    requires m <= |x| == |x4| == |x5|
  {
    if m == 0 then 0.0
    else SumSquares(x, x4, x5, roundoff, m - 1) + Square(Term(x[m - 1], x4[m - 1], x5[m - 1], roundoff))
  }

  /** Mean of the squared scaled differences: the square of the error
      measure `eps_step`.
      It is never negative, and it is zero exactly when `x4 == x5`. */
  function MeanSquare(x: Vec, x4: Vec, x5: Vec, roundoff: real): (r: real)
    requires 0 < |x| == |x4| == |x5|
    ensures r >= 0.0
    ensures r == 0.0 <==> x4 == x5
  {
    SumSquaresZero(x, x4, x5, roundoff, |x|);
    DivideByCount(SumSquares(x, x4, x5, roundoff, |x|), |x| as real);
    assert x4[..|x|] == x4 && x5[..|x|] == x5;
    SumSquares(x, x4, x5, roundoff, |x|) / (|x| as real)
  }

  /** A quotient by a positive number exceeds one exactly when the dividend
      exceeds the divisor. */
  lemma DivAboveOne(a: real, d: real)
    requires d > 0.0
    ensures a / d > 1.0 <==> a > d
  {
    var q := a / d;
    assert q * d == a;
    if q > 1.0 {
      assert (q - 1.0) * d > 0.0;
    }
  }

  /** A step passes the tolerance when `eps_step <= e_max`, that is when the
      mean square is at most `e_max^2`: exactly when the quotient
      `eps_step^2 / e_max^2` the step-size controller takes the root of is at
      most one. A step without error always passes. */
  function Accepts(meanSquare: real, eMax: real): (ok: bool)
    ensures eMax != 0.0 ==> Square(eMax) > 0.0 && (ok <==> meanSquare / Square(eMax) <= 1.0)
    ensures meanSquare <= 0.0 ==> ok
  {
    SquareSign(eMax);
    if eMax != 0.0 then
      DivAboveOne(meanSquare, Square(eMax));
      meanSquare <= Square(eMax)
    else
      meanSquare <= Square(eMax)
  }

  lemma TermZero(x0i: real, x4i: real, x5i: real, roundoff: real)
    ensures Term(x0i, x4i, x5i, roundoff) == 0.0 <==> x4i == x5i
  {
    var d := Denominator(x0i, x4i, roundoff);
    assert d > 0.0;
    if Term(x0i, x4i, x5i, roundoff) == 0.0 {
      assert x4i - x5i == Term(x0i, x4i, x5i, roundoff) * d;
    }
  }

  /** The sum of squares is never negative, and it is zero exactly when the
      two step ends agree on the components summed. */
  lemma {:induction false} SumSquaresZero(x: Vec, x4: Vec, x5: Vec, roundoff: real, m: nat)
    requires m <= |x| == |x4| == |x5|
    ensures SumSquares(x, x4, x5, roundoff, m) >= 0.0
    ensures SumSquares(x, x4, x5, roundoff, m) == 0.0 <==> x4[..m] == x5[..m]
    decreases m
  {
    if m > 0 {
      SumSquaresZero(x, x4, x5, roundoff, m - 1);
      var e := Term(x[m - 1], x4[m - 1], x5[m - 1], roundoff);
      SquareSign(e);
      TermZero(x[m - 1], x4[m - 1], x5[m - 1], roundoff);
      assert x4[..m] == x4[..m - 1] + [x4[m - 1]];
      assert x5[..m] == x5[..m - 1] + [x5[m - 1]];
      if x4[..m] == x5[..m] {
        assert x4[..m - 1] == x4[..m][..m - 1];
        assert x5[..m - 1] == x5[..m][..m - 1];
        assert x4[m - 1] == x4[..m][m - 1];
        assert x5[m - 1] == x5[..m][m - 1];
      }
    }
  }

  /** Dividing by a positive count keeps the sign and the zero. */
  lemma DivideByCount(s: real, n: real)
    requires n > 0.0
    ensures s >= 0.0 ==> s / n >= 0.0
    ensures s / n == 0.0 <==> s == 0.0
  {
    var q := s / n;
    assert q * n == s;
  }

  /** The error measure, accumulated component by component as the
      integrator does. */
  method EstimateError(x: Vec, x4: Vec, x5: Vec, roundoff: real) returns (sumSquares: real)
    requires |x| == |x4| == |x5|
    ensures sumSquares == SumSquares(x, x4, x5, roundoff, |x|)
    ensures sumSquares >= 0.0
    ensures sumSquares == 0.0 <==> x4 == x5
  {
    sumSquares := 0.0;
    var i := 0;
    while i < |x|
      invariant 0 <= i <= |x|
      invariant sumSquares == SumSquares(x, x4, x5, roundoff, i)
    {
      var denominator := Denominator(x[i], x4[i], roundoff);
      var term := (x4[i] - x5[i]) / denominator;
      sumSquares := sumSquares + Square(term);
      i := i + 1;
    }
    SumSquaresZero(x, x4, x5, roundoff, |x|);
    assert x4[..|x|] == x4 && x5[..|x|] == x5;
  }

  /** Comparing squares decides the same as comparing the root: for the
      non-negative `eps` whose square is the mean square, `eps <= e_max`
      exactly when the mean square is at most `e_max^2`. */
  lemma AcceptsBySquares(eps: real, eMax: real)
    requires eps >= 0.0 && eMax > 0.0
    ensures eps <= eMax <==> Accepts(Square(eps), eMax)
  {
    if eps <= eMax {
      calc {
        Square(eps);
        eps * eps;
      <=
        eps * eMax;
      <=
        eMax * eMax;
        Square(eMax);
      }
    } else {
      calc {
        Square(eps);
        eps * eps;
      >
        eps * eMax;
      >
        eMax * eMax;
        Square(eMax);
      }
    }
  }
}
