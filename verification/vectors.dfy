/** State vectors of the integrator (the `TVector` container) as sequences of
    exact reals, with the element-wise operations the Runge-Kutta formulas use. */
module Vectors {

  type Vec = seq<real>

  /** The vector of `n` zeros. */
  function Zero(n: nat): (z: Vec)
    ensures |z| == n
    ensures forall i :: 0 <= i < n ==> z[i] == 0.0
  {
    seq(n, _ => 0.0)
  }

  /** Element-wise sum. */
  function Add(a: Vec, b: Vec): (r: Vec)
    requires |a| == |b|
    ensures |r| == |a|
    ensures forall i :: 0 <= i < |a| ==> r[i] == a[i] + b[i]
  {
    seq(|a|, i requires 0 <= i < |a| => a[i] + b[i])
  }

  /** Scalar multiple. */
  function Scale(c: real, a: Vec): (r: Vec)
    ensures |r| == |a|
    ensures forall i :: 0 <= i < |a| ==> r[i] == c * a[i]
  {
    seq(|a|, i requires 0 <= i < |a| => c * a[i])
  }

  /** Every vector of `ks` has dimension `n`. */
  predicate AllOfLength(ks: seq<Vec>, n: nat)
  {
    forall j :: 0 <= j < |ks| ==> |ks[j]| == n
  }

  /** Sum of a sequence of reals. */
  function Sum(s: seq<real>): real
  {
    if |s| == 0 then 0.0 else Sum(s[..|s| - 1]) + s[|s| - 1]
  }

  /** `ws[0] * ks[0] + ... + ws[m-1] * ks[m-1]`, the zero vector when `m = 0`. */
  function LinComb(ws: seq<real>, ks: seq<Vec>, n: nat): (r: Vec)
    requires |ws| == |ks| && AllOfLength(ks, n)
    ensures |r| == n
    decreases |ws|
  {
    if |ws| == 0 then Zero(n)
    else
      var m := |ws| - 1;
      Add(LinComb(ws[..m], ks[..m], n), Scale(ws[m], ks[m]))
  }

  /** `x + h * (ws[0] * ks[0] + ...)`: the shape of every stage input, step end
      and dense-output value of the method. */
  function Combine(x: Vec, h: real, ws: seq<real>, ks: seq<Vec>): (r: Vec)
    requires |ws| == |ks| && AllOfLength(ks, |x|)
    ensures |r| == |x|
  {
    Add(x, Scale(h, LinComb(ws, ks, |x|)))
  }

  lemma MulAssoc(a: real, b: real, c: real)
    ensures a * (b * c) == (a * b) * c
  {
  }

  lemma Distrib(a: real, b: real, c: real)
    ensures (a + b) * c == a * c + b * c
  {
  }

  /** Moving along `v` by `a` and then by `b` is moving along it by
      `ab = a + b`. */
  lemma AddScaleAdd(x: Vec, a: real, b: real, ab: real, v: Vec)
    requires |x| == |v| && ab == a + b
    ensures Add(Add(x, Scale(a, v)), Scale(b, v)) == Add(x, Scale(ab, v))
  {
    forall i | 0 <= i < |x|
      ensures Add(Add(x, Scale(a, v)), Scale(b, v))[i] == Add(x, Scale(ab, v))[i]
    {
      var y := Add(x, Scale(a, v));
      assert y[i] == x[i] + a * v[i];
      assert Add(y, Scale(b, v))[i] == y[i] + b * v[i];
      Distrib(a, b, v[i]);
      assert Add(x, Scale(ab, v))[i] == x[i] + ab * v[i];
    }
  }

  lemma AddZero(x: Vec)
    ensures Add(x, Zero(|x|)) == x
  {
  }

  lemma ScaleZero(c: real, n: nat)
    ensures Scale(c, Zero(n)) == Zero(n)
  {
  }

  /** Component `i` of a linear combination is the weighted sum of the
      components `i` of the combined vectors. */
  lemma {:induction false} LinCombAt(ws: seq<real>, ks: seq<Vec>, n: nat, i: nat)
    requires |ws| == |ks| && AllOfLength(ks, n) && i < n
    ensures LinComb(ws, ks, n)[i] == Sum(seq(|ws|, j requires 0 <= j < |ws| => ws[j] * ks[j][i]))
    decreases |ws|
  {
    var terms := seq(|ws|, j requires 0 <= j < |ws| => ws[j] * ks[j][i]);
    if |ws| > 0 {
      var m := |ws| - 1;
      LinCombAt(ws[..m], ks[..m], n, i);
      var front := seq(m, j requires 0 <= j < m => ws[..m][j] * ks[..m][j][i]);
      assert terms[..m] == front by {
        forall j | 0 <= j < m
          ensures terms[..m][j] == front[j]
        {
        }
      }
      assert Sum(terms) == Sum(front) + ws[m] * ks[m][i];
    }
  }

  /** Zero weights give the zero vector, whatever is combined. */
  lemma {:induction false} LinCombZeroWeights(ws: seq<real>, ks: seq<Vec>, n: nat)
    requires |ws| == |ks| && AllOfLength(ks, n)
    requires forall j :: 0 <= j < |ws| ==> ws[j] == 0.0
    ensures LinComb(ws, ks, n) == Zero(n)
    decreases |ws|
  {
    if |ws| > 0 {
      var m := |ws| - 1;
      LinCombZeroWeights(ws[..m], ks[..m], n);
    }
  }

  /** Combining copies of one vector `v` scales `v` by the sum of the weights. */
  lemma {:induction false} LinCombConstant(ws: seq<real>, ks: seq<Vec>, v: Vec)
    requires |ws| == |ks|
    requires forall j :: 0 <= j < |ks| ==> ks[j] == v
    ensures LinComb(ws, ks, |v|) == Scale(Sum(ws), v)
    decreases |ws|
  {
    if |ws| > 0 {
      var m := |ws| - 1;
      LinCombConstant(ws[..m], ks[..m], v);
      var l := LinComb(ws, ks, |v|);
      var front := LinComb(ws[..m], ks[..m], |v|);
      assert front == Scale(Sum(ws[..m]), v);
      forall i | 0 <= i < |v|
        ensures l[i] == Scale(Sum(ws), v)[i]
      {
        assert l[i] == front[i] + ws[m] * v[i];
        assert Sum(ws[..m]) * v[i] + ws[m] * v[i] == (Sum(ws[..m]) + ws[m]) * v[i];
      }
      assert l == Scale(Sum(ws), v);
    }
  }

  /** A last weight of zero contributes nothing: the combination equals the
      one over the shorter prefix. */
  lemma LinCombDropZeroLast(ws: seq<real>, ks: seq<Vec>, n: nat)
    requires |ws| == |ks| > 0 && AllOfLength(ks, n)
    requires ws[|ws| - 1] == 0.0
    ensures LinComb(ws, ks, n) == LinComb(ws[..|ws| - 1], ks[..|ks| - 1], n)
  {
  }

  /** Combining with zero weights leaves the base point where it is. */
  lemma CombineZeroWeights(x: Vec, h: real, ws: seq<real>, ks: seq<Vec>)
    requires |ws| == |ks| && AllOfLength(ks, |x|)
    requires forall j :: 0 <= j < |ws| ==> ws[j] == 0.0
    ensures Combine(x, h, ws, ks) == x
  {
    LinCombZeroWeights(ws, ks, |x|);
    ScaleZero(h, |x|);
    AddZero(x);
  }

  /** Combining copies of `v` moves the base point along `v` by `h` times the
      weight sum `sw`. */
  lemma CombineConstant(x: Vec, h: real, ws: seq<real>, ks: seq<Vec>, v: Vec, sw: real)
    requires |ws| == |ks| && |v| == |x| && sw == Sum(ws)
    requires forall j :: 0 <= j < |ks| ==> ks[j] == v
    ensures AllOfLength(ks, |x|) && Combine(x, h, ws, ks) == Add(x, Scale(h * sw, v))
  {
    LinCombConstant(ws, ks, v);
    var c := Combine(x, h, ws, ks);
    forall i | 0 <= i < |x|
      ensures c[i] == Add(x, Scale(h * sw, v))[i]
    {
      MulAssoc(h, sw, v[i]);
    }
  }
}
