/** The fixed Butcher tableau of the Dormand-Prince 5(4) pair as the integrator
    declares it: nodes `C`, stage matrix `A` (seven rows of six entries, the
    entries the declaration leaves out being zero) and the two weight vectors
    `B4` and `B5`, under the names the integrator gives them. */
module Tableau {
  import opened Vectors

  /** Number of stages. */
  const Stages: nat := 7

  const C: seq<real> := [0.0, 1.0 / 5.0, 3.0 / 10.0, 4.0 / 5.0, 8.0 / 9.0, 1.0, 1.0]

  const A: seq<seq<real>> := [
    [0.0, 0.0, 0.0, 0.0, 0.0, 0.0],
    [1.0 / 5.0, 0.0, 0.0, 0.0, 0.0, 0.0],
    [3.0 / 40.0, 9.0 / 40.0, 0.0, 0.0, 0.0, 0.0],
    [44.0 / 45.0, -56.0 / 15.0, 32.0 / 9.0, 0.0, 0.0, 0.0],
    [19372.0 / 6561.0, -25360.0 / 2187.0, 64448.0 / 6561.0, -212.0 / 729.0, 0.0, 0.0],
    [9017.0 / 3168.0, -355.0 / 33.0, 46732.0 / 5247.0, 49.0 / 176.0, -5103.0 / 18656.0, 0.0],
    [35.0 / 384.0, 0.0, 500.0 / 1113.0, 125.0 / 192.0, -2187.0 / 6784.0, 11.0 / 84.0]
  ]

  /** The weights the integrator calls fourth order (its `x4`). */
  const B4: seq<real> :=
    [35.0 / 384.0, 0.0, 500.0 / 1113.0, 125.0 / 192.0, -2187.0 / 6784.0, 11.0 / 84.0, 0.0]

  /** The weights the integrator calls fifth order (its `x5`). */
  const B5: seq<real> :=
    [5179.0 / 57600.0, 0.0, 7571.0 / 16695.0, 393.0 / 640.0, -92097.0 / 339200.0, 187.0 / 2100.0, 1.0 / 40.0]

  /** Shape of the tables: seven nodes, seven rows of six, seven weights. */
  lemma Shape()
    ensures |C| == Stages && |A| == Stages && |B4| == Stages && |B5| == Stages
    ensures forall i :: 0 <= i < Stages ==> |A[i]| == Stages - 1
  {
  }

  lemma Sum6(s: seq<real>)
    requires |s| == 6
    ensures Sum(s) == s[0] + s[1] + s[2] + s[3] + s[4] + s[5]
  {
    assert Sum(s[..1]) == s[0] by {
      assert s[..1][..0] == [];
    }
    assert Sum(s[..2]) == Sum(s[..1]) + s[1] by {
      assert s[..2][..1] == s[..1];
    }
    assert Sum(s[..3]) == Sum(s[..2]) + s[2] by {
      assert s[..3][..2] == s[..2];
    }
    assert Sum(s[..4]) == Sum(s[..3]) + s[3] by {
      assert s[..4][..3] == s[..3];
    }
    assert Sum(s[..5]) == Sum(s[..4]) + s[4] by {
      assert s[..5][..4] == s[..4];
    }
  }

  lemma Sum7(s: seq<real>)
    requires |s| == 7
    ensures Sum(s) == s[0] + s[1] + s[2] + s[3] + s[4] + s[5] + s[6]
  {
    Sum6(s[..6]);
  }

  /** The method is explicit: stage `i` uses only the stages before it. */
  lemma StrictlyLowerTriangular()
    ensures forall i, j :: 0 <= i < Stages && i <= j < Stages - 1 ==> A[i][j] == 0.0
  {
  }

  /** Row sum condition: each stage is evaluated at the time its state is
      advanced to, `sum_j A[i][j] == C[i]`. */
  lemma RowSums()
    ensures forall i :: 0 <= i < Stages ==> Sum(A[i]) == C[i]
  {
    forall i | 0 <= i < Stages
      ensures Sum(A[i]) == C[i]
    {
      Sum6(A[i]);
    }
  }

  /** Both weight vectors are consistent: their entries add up to one. */
  lemma WeightSums()
    ensures Sum(B4) == 1.0 && Sum(B5) == 1.0
  {
    Sum7(B4);
    Sum7(B5);
  }

  /** First same as last: the last stage row repeats the `B4` weights and the
      last `B4` weight is zero, so the seventh stage is evaluated at the `x4`
      state at the end of the step. */
  lemma FirstSameAsLast()
    ensures A[Stages - 1] == B4[..Stages - 1] && B4[Stages - 1] == 0.0 && C[Stages - 1] == 1.0
  {
  }

  function Pow(x: real, k: nat): real
  {
    if k == 0 then 1.0 else x * Pow(x, k - 1)
  }

  /** `sum_j b[j] * C[j]^k`; a weight vector of order `p` has moment
      `1 / (k + 1)` for every `k < p`. */
  function Moment(b: seq<real>, k: nat): real
    requires |b| == Stages
  {
    Sum(seq(Stages, j requires 0 <= j < Stages => b[j] * Pow(C[j], k)))
  }

  lemma MomentUnrolled(b: seq<real>, k: nat)
    requires |b| == Stages
    ensures Moment(b, k) == b[0] * Pow(C[0], k) + b[1] * Pow(C[1], k) + b[2] * Pow(C[2], k)
      + b[3] * Pow(C[3], k) + b[4] * Pow(C[4], k) + b[5] * Pow(C[5], k) + b[6] * Pow(C[6], k)
  {
    Sum7(seq(Stages, j requires 0 <= j < Stages => b[j] * Pow(C[j], k)));
  }

  /** The `B4` weights integrate `1, c, c^2, c^3, c^4` exactly: they meet the
      quadrature conditions of order five. */
  lemma B4Quadrature()
    ensures Moment(B4, 0) == 1.0
    ensures Moment(B4, 1) == 1.0 / 2.0
    ensures Moment(B4, 2) == 1.0 / 3.0
    ensures Moment(B4, 3) == 1.0 / 4.0
    ensures Moment(B4, 4) == 1.0 / 5.0
  {
    MomentUnrolled(B4, 0);
    MomentUnrolled(B4, 1);
    MomentUnrolled(B4, 2);
    MomentUnrolled(B4, 3);
    MomentUnrolled(B4, 4);
  }

  /** The `B5` weights meet the quadrature conditions up to `c^3` only: the
      `c^4` condition fails, so `B5` cannot be the fifth-order member of the
      pair in spite of its name. In Dormand and Prince's 1980 table the
      fifth-order solution takes the `B4` weights. */
  lemma B5Quadrature()
    ensures Moment(B5, 0) == 1.0
    ensures Moment(B5, 1) == 1.0 / 2.0
    ensures Moment(B5, 2) == 1.0 / 3.0
    ensures Moment(B5, 3) == 1.0 / 4.0
    ensures Moment(B5, 4) == 53929.0 / 270000.0 != 1.0 / 5.0
  {
    MomentUnrolled(B5, 0);
    MomentUnrolled(B5, 1);
    MomentUnrolled(B5, 2);
    MomentUnrolled(B5, 3);
    MomentUnrolled(B5, 4);
  }
}
