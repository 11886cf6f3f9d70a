/** Row-major float buffers: rows, their concatenation, and functions applied row by row. */
module Tensor {

  /** A float. Nothing here depends on what a float is, only that there is a zero. */
  type Elem(==, 0, !new)
  const Zero: Elem

  type Row = seq<Elem>

  function Zeros(n: nat): (z: Row)
    ensures |z| == n && forall i :: 0 <= i < n ==> z[i] == Zero
  {
    seq(n, _ => Zero)
  }

  /** All rows of a batch in one contiguous sequence, first row first. */
  function Concat<T>(rows: seq<seq<T>>): seq<T> {
    if rows == [] then [] else Concat(rows[..|rows| - 1]) + rows[|rows| - 1]
  }

  /** Row `i` of a buffer of rows of width `w`; empty when the buffer is too short. */
  function RowAt(x: Row, i: nat, w: nat): Row {
    if i * w + w <= |x| then x[i * w..i * w + w] else []
  }

  /** `f` applied to each of the first `n` rows of width `w`, results concatenated. */
  function MapRows(f: Row -> Row, x: Row, n: nat, w: nat): Row {
    if n == 0 then [] else MapRows(f, x, n - 1, w) + f(RowAt(x, n - 1, w))
  }

  ghost predicate AllWidth(rows: seq<Row>, w: nat) {
    forall i :: 0 <= i < |rows| ==> |rows[i]| == w
  }

  /** `f` turns rows of width `wi` into rows of width `wo`. */
  ghost predicate RowFunction(f: Row -> Row, wi: nat, wo: nat) {
    forall r: Row {:trigger f(r)} :: |r| == wi ==> |f(r)| == wo
  }

  lemma {:induction false} ConcatLength(rows: seq<Row>, w: nat)
    requires AllWidth(rows, w)
    ensures |Concat(rows)| == |rows| * w
  {
    if rows != [] {
      ConcatLength(rows[..|rows| - 1], w);
      assert |rows| * w == (|rows| - 1) * w + w;
    }
  }

  lemma {:induction false} RowFits(i: nat, n: nat, w: nat)
    requires i < n
    ensures i * w + w <= n * w
  {
    assert n * w == (n - 1) * w + w;
    if i + 1 < n {
      RowFits(i, n - 1, w);
    }
  }

  lemma RowOfFront(front: Row, last: Row, i: nat, w: nat)
    requires i * w + w <= |front|
    ensures RowAt(front + last, i, w) == RowAt(front, i, w)
  {
    var from := i * w;
    assert (front + last)[from..from + w] == front[from..from + w];
  }

  lemma RowOfLast(front: Row, last: Row, n: nat, w: nat)
    requires |front| == n * w && |last| == w
    ensures RowAt(front + last, n, w) == last
  {
  }

  /** Packing is undone by slicing: row `i` of the packed buffer is the `i`-th row packed. */
  lemma {:induction false} RowOfConcat(rows: seq<Row>, w: nat, i: nat)
    requires AllWidth(rows, w) && i < |rows|
    ensures RowAt(Concat(rows), i, w) == rows[i]
  {
    var n := |rows| - 1;
    var front := rows[..n];
    ConcatLength(front, w);
    if i < n {
      RowFits(i, n, w);
      RowOfConcat(front, w, i);
      RowOfFront(Concat(front), rows[n], i, w);
    } else {
      RowOfLast(Concat(front), rows[n], n, w);
    }
  }

  lemma {:induction false} MapRowsLength(f: Row -> Row, x: Row, n: nat, wi: nat, wo: nat)
    requires RowFunction(f, wi, wo) && |x| >= n * wi
    ensures |MapRows(f, x, n, wi)| == n * wo
  {
    if n != 0 {
      RowFits(n - 1, n, wi);
      assert n * wo == (n - 1) * wo + wo;
      MapRowsLength(f, x, n - 1, wi, wo);
    }
  }

  /** Row `i` of the result is `f` of row `i` of the input, and of nothing else. */
  lemma {:induction false} RowOfMapRows(f: Row -> Row, x: Row, n: nat, wi: nat, wo: nat, i: nat)
    requires RowFunction(f, wi, wo) && |x| >= n * wi && i < n
    ensures RowAt(MapRows(f, x, n, wi), i, wo) == f(RowAt(x, i, wi))
  {
    var front, last := MapRows(f, x, n - 1, wi), f(RowAt(x, n - 1, wi));
    RowFits(n - 1, n, wi);
    MapRowsLength(f, x, n - 1, wi, wo);
    if i < n - 1 {
      RowFits(i, n - 1, wo);
      RowOfMapRows(f, x, n - 1, wi, wo, i);
      RowOfFront(front, last, i, wo);
    } else {
      RowOfLast(front, last, n - 1, wo);
    }
  }

  /** Two buffers that agree on their first `n` rows are mapped alike on those rows. */
  lemma {:induction false} MapRowsLocal(f: Row -> Row, x: Row, y: Row, n: nat, w: nat)
    requires |x| >= n * w && |y| >= n * w && x[..n * w] == y[..n * w]
    ensures MapRows(f, x, n, w) == MapRows(f, y, n, w)
  {
    if n != 0 {
      RowFits(n - 1, n, w);
      var m := (n - 1) * w;
      assert x[..m] == x[..n * w][..m] == y[..n * w][..m] == y[..m];
      assert RowAt(x, n - 1, w) == x[..n * w][m..] == y[..n * w][m..] == RowAt(y, n - 1, w);
      MapRowsLocal(f, x, y, n - 1, w);
    }
  }

  /** The first `n` result rows do not depend on how many rows follow. */
  lemma {:induction false} MapRowsPrefix(f: Row -> Row, x: Row, n: nat, m: nat, wi: nat, wo: nat)
    requires RowFunction(f, wi, wo) && n <= m && |x| >= m * wi
    ensures n * wo <= m * wo == |MapRows(f, x, m, wi)|
    ensures MapRows(f, x, m, wi)[..n * wo] == MapRows(f, x, n, wi)
    decreases m
  {
    MapRowsLength(f, x, m, wi, wo);
    if n < m {
      RowFits(m - 1, m, wi);
      RowFits(m - 1, m, wo);
      RowFits(n, m, wo);
      MapRowsPrefix(f, x, n, m - 1, wi, wo);
      var front := MapRows(f, x, m - 1, wi);
      assert MapRows(f, x, m, wi)[..n * wo] == front[..n * wo];
    } else {
      assert MapRows(f, x, m, wi)[..n * wo] == MapRows(f, x, n, wi);
    }
  }
}
