/** The result table a model keeps for a run: a matrix of rows
    `(time, state...)` together with the count `N` of rows written so far.
    Rows past the count are storage reserved in advance and hold zeros until
    they are written. */
module ResultTable {

  /** `rows` is the matrix, every row `cols` entries long; `count` is `N`. */
  datatype Table = Table(rows: seq<seq<real>>, cols: nat, count: nat)

  /** Every row has `cols` entries and the count stays within the rows. */
  predicate Valid(tb: Table)
  {
    tb.count <= |tb.rows| && forall i :: 0 <= i < |tb.rows| ==> |tb.rows[i]| == tb.cols
  }

  /** The entry at row `i`, column `j`, or zero outside the stored matrix. */
  function EntryOrZero(rows: seq<seq<real>>, i: int, j: int): real
  {
    if 0 <= i < |rows| && 0 <= j < |rows[i]| then rows[i][j] else 0.0
  }

  /** The matrix resized to `r` rows of `c` columns: the entries the old and
      the new shape share keep their values, every new entry is zero. The
      count is not touched. */
  function Resize(tb: Table, r: nat, c: nat): (res: Table)
    ensures |res.rows| == r && res.cols == c && res.count == tb.count
    ensures forall i :: 0 <= i < r ==> |res.rows[i]| == c
    ensures forall i, j :: 0 <= i < r && 0 <= j < c ==>
      res.rows[i][j] == (if i < |tb.rows| && j < |tb.rows[i]| then tb.rows[i][j] else 0.0)
  {
    Table(seq(r, i => seq(c, j => EntryOrZero(tb.rows, i, j))), c, tb.count)
  }

  /** `clearResult`: an empty matrix and a zero count. */
  function Clear(tb: Table): (res: Table)
    ensures res.rows == [] && res.cols == 0 && res.count == 0
    ensures Valid(res)
  {
    Resize(tb, 0, 0).(count := 0)
  }

  /** The integer part of `v`, rounding toward zero as a C cast does. */
  function Trunc(v: real): (n: int)
    ensures v >= 0.0 ==> 0 <= n && n as real <= v < n as real + 1.0
    ensures v < 0.0 ==> n <= 0 && n as real - 1.0 < v <= n as real
  {
    if v >= 0.0 then v.Floor else -((-v).Floor)
  }

  /** The number of rows reserved for a run over `[t0, t1]` with output
      spacing `step`: the whole output steps in the span, plus two. */
  function RowsHint(t0: real, t1: real, step: real): int
    requires step > 0.0
  {
    Trunc((t1 - t0) / step) + 2
  }

  /** `prepareResult`: reserve `RowsHint` rows of `order + 1` columns and
      reset the count. */
  function Prepare(tb: Table, t0: real, t1: real, step: real, order: nat): (res: Table)
    requires step > 0.0 && RowsHint(t0, t1, step) >= 0
    ensures |res.rows| == RowsHint(t0, t1, step) && res.cols == order + 1 && res.count == 0
    ensures Valid(res)
  {
    Resize(tb, RowsHint(t0, t1, step) as nat, order + 1).(count := 0)
  }

  /** Row `row` with `t` in column 0 and `X[i]` in column `i + 1`; the
      columns past `X` keep their values. */
  function WriteRow(row: seq<real>, X: seq<real>, t: real): (res: seq<real>)
    requires |X| < |row|
    ensures |res| == |row| && res[0] == t
    ensures forall i :: 0 <= i < |X| ==> res[i + 1] == X[i]
    ensures forall j :: |X| < j < |row| ==> res[j] == row[j]
  {
    [t] + X + row[|X| + 1..]
  }

  /** `addResult`: when the count has reached the number of rows the matrix
      first grows by one row (to `order + 1` columns); then row `N` receives
      `t` and `X`, and the count goes up by one. */
  function AddResult(tb: Table, order: nat, X: seq<real>, t: real): (res: Table)
    requires Valid(tb) && |X| <= order
    requires tb.count < |tb.rows| ==> |X| < tb.cols
    ensures Valid(res)
    ensures res.count == tb.count + 1
    ensures |res.rows| == (if tb.count == |tb.rows| then tb.count + 1 else |tb.rows|)
    ensures res.cols == (if tb.count == |tb.rows| then order + 1 else tb.cols)
    ensures res.rows[tb.count][0] == t
    ensures forall i :: 0 <= i < |X| ==> res.rows[tb.count][i + 1] == X[i]
    ensures |X| + 1 == res.cols ==> res.rows[tb.count] == [t] + X
    ensures tb.count < |tb.rows| ==> forall i :: 0 <= i < |tb.rows| && i != tb.count ==> res.rows[i] == tb.rows[i]
    ensures forall i, j :: 0 <= i < |res.rows| && i != tb.count && 0 <= j < res.cols ==>
      res.rows[i][j] == EntryOrZero(tb.rows, i, j)
  {
    var grown := if tb.count == |tb.rows| then Resize(tb, tb.count + 1, order + 1) else tb;
    var row := WriteRow(grown.rows[tb.count], X, t);
    Table(grown.rows[tb.count := row], grown.cols, tb.count + 1)
  }

  /** The table after `addResult(Xs[k], ts[k])` for every `k` in order. */
  function AddAll(tb: Table, order: nat, Xs: seq<seq<real>>, ts: seq<real>): (res: Table)
    requires Valid(tb) && tb.cols == order + 1 && |Xs| == |ts|
    requires forall k :: 0 <= k < |Xs| ==> |Xs[k]| == order
    ensures Valid(res) && res.cols == order + 1
    decreases |Xs|
  {
    if |Xs| == 0 then tb
    else
      var last := |Xs| - 1;
      AddResult(AddAll(tb, order, Xs[..last], ts[..last]), order, Xs[last], ts[last])
  }

  /** The rows of the matrix from `lo` on are all zeros. */
  predicate ZeroFrom(tb: Table, lo: nat)
  {
    forall i, j :: lo <= i < |tb.rows| && 0 <= j < |tb.rows[i]| ==> tb.rows[i][j] == 0.0
  }

  /** Row `k` holds time `t` and state `X`. */
  predicate RowHolds(tb: Table, k: nat, X: seq<real>, t: real)
  {
    k < |tb.rows| && tb.rows[k] == [t] + X
  }

  /** Appending `k` full-width rows to a freshly prepared table of `hint`
      zero rows leaves the count at `k`, `max(hint, k)` rows, row `i` holding
      the `i`-th sample, and zeros in the rows not yet written. */
  lemma {:induction false} AddAllAfterPrepare(tb: Table, order: nat, Xs: seq<seq<real>>, ts: seq<real>, hint: nat)
    requires Valid(tb) && tb.cols == order + 1 && tb.count == 0 && |tb.rows| == hint && ZeroFrom(tb, 0)
    requires |Xs| == |ts| && forall k :: 0 <= k < |Xs| ==> |Xs[k]| == order
    ensures AddAll(tb, order, Xs, ts).count == |Xs|
    ensures |AddAll(tb, order, Xs, ts).rows| == (if hint < |Xs| then |Xs| else hint)
    ensures forall k :: 0 <= k < |Xs| ==> RowHolds(AddAll(tb, order, Xs, ts), k, Xs[k], ts[k])
    ensures ZeroFrom(AddAll(tb, order, Xs, ts), |Xs|)
    decreases |Xs|
  {
    if |Xs| > 0 {
      var last := |Xs| - 1;
      var before := AddAll(tb, order, Xs[..last], ts[..last]);
      AddAllAfterPrepare(tb, order, Xs[..last], ts[..last], hint);
      var res := AddAll(tb, order, Xs, ts);
      assert res == AddResult(before, order, Xs[last], ts[last]);
      var row := res.rows[last];
      assert row == [ts[last]] + Xs[last] by {
        assert |row| == order + 1;
        forall j | 0 <= j < order + 1
          ensures row[j] == ([ts[last]] + Xs[last])[j]
        {
          if j > 0 {
            assert row[(j - 1) + 1] == Xs[last][j - 1];
          }
        }
      }
      forall k | 0 <= k < last
        ensures RowHolds(res, k, Xs[k], ts[k])
      {
        assert RowHolds(before, k, Xs[..last][k], ts[..last][k]);
        if before.count == |before.rows| {
          assert res.rows[k] == before.rows[k] by {
            forall j | 0 <= j < order + 1
              ensures res.rows[k][j] == before.rows[k][j]
            {
            }
          }
        }
      }
      forall i, j | |Xs| <= i < |res.rows| && 0 <= j < |res.rows[i]|
        ensures res.rows[i][j] == 0.0
      {
        assert res.rows[i] == before.rows[i];
      }
    }
  }

  /** Clearing forgets everything: the cleared table does not depend on the
      table before it, and a table prepared after clearing holds only
      zeros. */
  lemma ClearThenPrepare(tb1: Table, tb2: Table, t0: real, t1: real, step: real, order: nat)
    requires step > 0.0 && RowsHint(t0, t1, step) >= 0
    ensures Clear(tb1) == Clear(tb2)
    ensures ZeroFrom(Prepare(Clear(tb1), t0, t1, step, order), 0)
  {
  }
}
